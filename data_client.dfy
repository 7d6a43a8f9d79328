/** The data client: turns schema and data operations into dialect-rendered
    statements and issues them, in order, on its database. Every operation
    is stated as the calls it appends to the database's trace, in terms of
    the functions of `Statements`. */
module DataClients {
  import opened SchemaModel
  import opened Databases
  import opened Dialects
  import opened Statements

  class DataClient {
    var Database: Database?
    var Dialect: Dialect
    var Schema: Option<string>
    var ThrowException: bool

    /** The client has a database to talk to, and that database's trace is
        well formed. */
    ghost predicate Ready()
      reads this, Database
    {
      Database != null && Database.Valid()
    }

    /** The `schema` argument only decides whether the process-wide default
        schema is reset; the instance's own `Schema` is left unset. */
    constructor (database: Database?, dialect: Dialect, schema: Option<string>)
      ensures Database == database && Dialect == dialect
      ensures ThrowException && Schema == None
    {
      Database := database;
      Dialect := dialect;
      ThrowException := true;
      Schema := None;
    }

    /** Issues each statement once, in order, without parameters. */
    method ExecuteSqls(sqls: seq<string>)
      requires Ready()
      modifies Database
      ensures Ready()
      ensures Database.Calls == old(Database.Calls) + ExecuteEach(sqls)
      ensures old(Database.Replies) <= Database.Replies
    {
      for i := 0 to |sqls|
        invariant Database.Valid()
        invariant Database.Calls == old(Database.Calls) + ExecuteEach(sqls[..i])
        invariant old(Database.Replies) <= Database.Replies
      {
        var affected, outValues := Database.ExecuteSql(sqls[i], None);
        assert sqls[..i + 1][..i] == sqls[..i];
      }
      assert sqls[..|sqls|] == sqls;
    }

    /** Creates a table holding the given columns, in argument order, with
        every statement the dialect needs for it. */
    method AddTable(tableName: string, columns: seq<FluentColumn>)
      requires Ready()
      modifies Database
      ensures Ready()
      ensures Database.Calls == old(Database.Calls) + ExecuteEach(Dialect.createTableSqls(Table(tableName, ColumnObjects(columns))))
      ensures old(Database.Replies) <= Database.Replies
    {
      var tableColumns: seq<Column> := [];
      for i := 0 to |columns|
        invariant tableColumns == ColumnObjects(columns[..i])
      {
        tableColumns := tableColumns + [columns[i].obj];
        assert columns[..i + 1][..i] == columns[..i];
      }
      assert columns[..|columns|] == columns;
      var table := Table(tableName, tableColumns);
      var sqls := Dialect.createTableSqls(table);
      ExecuteSqls(sqls);
    }

    method RemoveTable(tableName: string)
      requires Ready()
      modifies Database
      ensures Ready()
      ensures Database.Calls == old(Database.Calls) + ExecuteEach(Dialect.dropTableSqls(tableName))
      ensures old(Database.Replies) <= Database.Replies
    {
      var sqls := Dialect.dropTableSqls(tableName);
      ExecuteSqls(sqls);
    }

    /** Adds a primary key named after the table. */
    method AddPrimaryKey(tableName: string, columnNames: seq<string>)
      requires Ready()
      modifies Database
      ensures Ready()
      ensures Database.Calls == old(Database.Calls) + [Executed(Dialect.primaryKeySql(tableName, PrimaryKeyName(tableName), columnNames), None)]
      ensures old(Database.Replies) <= Database.Replies
    {
      var sql := Dialect.primaryKeySql(tableName, PrimaryKeyName(tableName), columnNames);
      var affected, outValues := Database.ExecuteSql(sql, None);
    }

    method AddNamedPrimaryKey(tableName: string, pkName: string, columnNames: seq<string>)
      requires Ready()
      modifies Database
      ensures Ready()
      ensures Database.Calls == old(Database.Calls) + [Executed(Dialect.primaryKeySql(tableName, pkName, columnNames), None)]
      ensures old(Database.Replies) <= Database.Replies
    {
      var sql := Dialect.primaryKeySql(tableName, pkName, columnNames);
      var affected, outValues := Database.ExecuteSql(sql, None);
    }

    method AddForeignKey(fkName: string, table: string, column: string, referencingTable: string,
                         referencingColumn: string, onDelete: OnDelete)
      requires Ready()
      modifies Database
      ensures Ready()
      ensures Database.Calls == old(Database.Calls) +
                [Executed(Dialect.foreignKeySql(fkName, table, column, referencingTable, referencingColumn, onDelete), None)]
      ensures old(Database.Replies) <= Database.Replies
    {
      var sql := Dialect.foreignKeySql(fkName, table, column, referencingTable, referencingColumn, onDelete);
      var affected, outValues := Database.ExecuteSql(sql, None);
    }

    method RemovePrimaryKey(tableName: string, primaryKeyName: string)
      requires Ready()
      modifies Database
      ensures Ready()
      ensures Database.Calls == old(Database.Calls) + [Executed(Dialect.dropPrimaryKeySql(tableName, primaryKeyName), None)]
      ensures old(Database.Replies) <= Database.Replies
    {
      var sql := Dialect.dropPrimaryKeySql(tableName, primaryKeyName);
      var affected, outValues := Database.ExecuteSql(sql, None);
    }

    method RemoveForeignKey(foreignKeyName: string, tableName: string)
      requires Ready()
      modifies Database
      ensures Ready()
      ensures Database.Calls == old(Database.Calls) + [Executed(Dialect.dropForeignKeySql(foreignKeyName, tableName), None)]
      ensures old(Database.Replies) <= Database.Replies
    {
      var sql := Dialect.dropForeignKeySql(foreignKeyName, tableName);
      var affected, outValues := Database.ExecuteSql(sql, None);
    }

    method AddUniqueKey(uniqueKeyName: string, tableName: string, columnNames: seq<string>)
      requires Ready()
      modifies Database
      ensures Ready()
      ensures Database.Calls == old(Database.Calls) + [Executed(Dialect.uniqueKeySql(uniqueKeyName, tableName, columnNames), None)]
      ensures old(Database.Replies) <= Database.Replies
    {
      var sql := Dialect.uniqueKeySql(uniqueKeyName, tableName, columnNames);
      var affected, outValues := Database.ExecuteSql(sql, None);
    }

    method RemoveUniqueKey(uniqueKeyName: string, tableName: string)
      requires Ready()
      modifies Database
      ensures Ready()
      ensures Database.Calls == old(Database.Calls) + [Executed(Dialect.dropUniqueKeySql(uniqueKeyName, tableName), None)]
      ensures old(Database.Replies) <= Database.Replies
    {
      var sql := Dialect.dropUniqueKeySql(uniqueKeyName, tableName);
      var affected, outValues := Database.ExecuteSql(sql, None);
    }

    method AddIndex(indexName: string, tableName: string, columnNames: seq<string>)
      requires Ready()
      modifies Database
      ensures Ready()
      ensures Database.Calls == old(Database.Calls) + [Executed(Dialect.createIndexSql(indexName, tableName, columnNames), None)]
      ensures old(Database.Replies) <= Database.Replies
    {
      var sql := Dialect.createIndexSql(indexName, tableName, columnNames);
      var affected, outValues := Database.ExecuteSql(sql, None);
    }

    method RemoveIndex(indexName: string, table: string)
      requires Ready()
      modifies Database
      ensures Ready()
      ensures Database.Calls == old(Database.Calls) + [Executed(Dialect.dropIndexSql(indexName, table), None)]
      ensures old(Database.Replies) <= Database.Replies
    {
      var sql := Dialect.dropIndexSql(indexName, table);
      var affected, outValues := Database.ExecuteSql(sql, None);
    }

    method AddColumn(tableName: string, column: Column)
      requires Ready()
      modifies Database
      ensures Ready()
      ensures Database.Calls == old(Database.Calls) + [Executed(Dialect.addColumnSql(tableName, column), None)]
      ensures old(Database.Replies) <= Database.Replies
    {
      var sql := Dialect.addColumnSql(tableName, column);
      var affected, outValues := Database.ExecuteSql(sql, None);
    }

    /** Drops a column with every statement the dialect needs for it (for
        instance dropping a constraint first), in the dialect's order. */
    method RemoveColumn(tableName: string, columnName: string)
      requires Ready()
      modifies Database
      ensures Ready()
      ensures Database.Calls == old(Database.Calls) + ExecuteEach(Dialect.dropColumnSqls(tableName, columnName))
      ensures old(Database.Replies) <= Database.Replies
    {
      var sqls := Dialect.dropColumnSqls(tableName, columnName);
      var i := 0;
      while i < |sqls|
        invariant 0 <= i <= |sqls|
        invariant Database.Valid()
        invariant Database.Calls == old(Database.Calls) + ExecuteEach(sqls[..i])
        invariant old(Database.Replies) <= Database.Replies
      {
        var affected, outValues := Database.ExecuteSql(sqls[i], None);
        assert sqls[..i + 1][..i] == sqls[..i];
        i := i + 1;
      }
      assert sqls[..|sqls|] == sqls;
    }

    method AddTableComment(tableName: string, comment: string)
      requires Ready()
      modifies Database
      ensures Ready()
      ensures Database.Calls == old(Database.Calls) + [Executed(Dialect.addCommentToTableSql(tableName, comment), None)]
      ensures old(Database.Replies) <= Database.Replies
    {
      var sql := Dialect.addCommentToTableSql(tableName, comment);
      var affected, outValues := Database.ExecuteSql(sql, None);
    }

    method AddColumnComment(tableName: string, columnName: string, comment: string)
      requires Ready()
      modifies Database
      ensures Ready()
      ensures Database.Calls == old(Database.Calls) + [Executed(Dialect.addCommentToColumnSql(tableName, columnName, comment), None)]
      ensures old(Database.Replies) <= Database.Replies
    {
      var sql := Dialect.addCommentToColumnSql(tableName, columnName, comment);
      var affected, outValues := Database.ExecuteSql(sql, None);
    }

    method RemoveTableComment(tableName: string)
      requires Ready()
      modifies Database
      ensures Ready()
      ensures Database.Calls == old(Database.Calls) + [Executed(Dialect.removeCommentFromTableSql(tableName), None)]
      ensures old(Database.Replies) <= Database.Replies
    {
      var sql := Dialect.removeCommentFromTableSql(tableName);
      var affected, outValues := Database.ExecuteSql(sql, None);
    }

    method RemoveColumnComment(tableName: string, columnName: string)
      requires Ready()
      modifies Database
      ensures Ready()
      ensures Database.Calls == old(Database.Calls) + [Executed(Dialect.removeCommentFromColumnSql(tableName, columnName), None)]
      ensures old(Database.Replies) <= Database.Replies
    {
      var sql := Dialect.removeCommentFromColumnSql(tableName, columnName);
      var affected, outValues := Database.ExecuteSql(sql, None);
    }

    method RenameTable(tableName: string, newTableName: string)
      requires Ready()
      modifies Database
      ensures Ready()
      ensures Database.Calls == old(Database.Calls) + [Executed(Dialect.renameTableSql(tableName, newTableName), None)]
      ensures old(Database.Replies) <= Database.Replies
    {
      var sql := Dialect.renameTableSql(tableName, newTableName);
      var affected, outValues := Database.ExecuteSql(sql, None);
    }

    method RenameColumn(tableName: string, columnName: string, newColumnName: string)
      requires Ready()
      modifies Database
      ensures Ready()
      ensures Database.Calls == old(Database.Calls) + [Executed(Dialect.renameColumnSql(tableName, columnName, newColumnName), None)]
      ensures old(Database.Replies) <= Database.Replies
    {
      var sql := Dialect.renameColumnSql(tableName, columnName, newColumnName);
      var affected, outValues := Database.ExecuteSql(sql, None);
    }

    method ModifyColumn(tableName: string, columnName: string, columnDefinition: Column)
      requires Ready()
      modifies Database
      ensures Ready()
      ensures Database.Calls == old(Database.Calls) + [Executed(Dialect.modifyColumnSql(tableName, columnName, columnDefinition), None)]
      ensures old(Database.Replies) <= Database.Replies
    {
      var affected, outValues := Database.ExecuteSql(Dialect.modifyColumnSql(tableName, columnName, columnDefinition), None);
    }

    /** Runs the query the select builder builds; its parameters are passed
        only when the builder reports a filter. */
    method SelectSql(tables: seq<string>, columns: seq<string>, filter: Option<Filter>, orderBys: seq<OrderBy>,
                     skip: int, take: int) returns (result: ResultSet)
      requires Ready()
      modifies Database
      ensures Ready()
      ensures Database.Calls == old(Database.Calls) + [SelectCall(Dialect.buildSelect(tables, columns, filter, orderBys, skip, take))]
      ensures Database.Replies == old(Database.Replies) + [Rows(result)]
    {
      var query := Dialect.buildSelect(tables, columns, filter, orderBys, skip, take);
      if query.hasFilter {
        result := Database.Query(query.sql, Some(query.parameters));
        return;
      }
      result := Database.Query(query.sql, None);
    }

    /** Inserts one row (all nulls when no values are given) and returns the
        database's affected-row count. */
    method InsertSql(table: string, columns: seq<string>, values: Option<seq<Value>>) returns (affected: int)
      requires Ready()
      modifies Database
      ensures Ready()
      ensures var vs := ValuesOrNulls(columns, values);
              Database.Calls == old(Database.Calls) + [Executed(Dialect.insertSql(table, columns, vs), Some(Dialect.namedParameters(vs)))]
      ensures Database.Replies == old(Database.Replies) + [Affected(affected, [])]
    {
      var vs := ValuesOrNulls(columns, values);
      var sql := Dialect.insertSql(table, columns, vs);
      var outValues;
      affected, outValues := Database.ExecuteSql(sql, Some(Dialect.namedParameters(vs)));
    }

    /** Inserts one row and returns the value the database wrote into the
        statement's one output slot. */
    method InsertReturningSql(table: string, columnToReturn: string, columns: seq<string>, values: seq<Value>) returns (returned: Value)
      requires Ready()
      modifies Database
      ensures Ready()
      ensures Database.Calls == old(Database.Calls) +
                [Executed(Dialect.insertReturningColumnSql(table, columns, values, columnToReturn, ReturningName(columnToReturn)),
                          Some(InsertReturningParameters(Dialect.namedParameters(values), columnToReturn)))]
      ensures |Database.Replies| == |old(Database.Replies)| + 1
      ensures Database.Replies[..|old(Database.Replies)|] == old(Database.Replies)
      ensures var last := Database.Replies[|Database.Replies| - 1];
              last.Affected? && last.outValues == [returned]
    {
      var returningName := ReturningName(columnToReturn);
      var retSql := Dialect.insertReturningColumnSql(table, columns, values, columnToReturn, returningName);
      var pars := Dialect.namedParameters(values);
      var listPars := InsertReturningParameters(pars, columnToReturn);
      var affected, outValues := Database.ExecuteSql(retSql, Some(listPars));
      returned := outValues[0];
    }

    /** Updates the rows the filter selects (all rows without one) and
        returns the affected-row count; the statement and its parameters are
        `UpdateRequest`'s. */
    method UpdateSql(table: string, columns: seq<string>, values: Option<seq<Value>>, filter: Option<Filter>) returns (affected: int)
      requires Ready()
      modifies Database
      ensures Ready()
      ensures var r := UpdateRequest(Dialect, table, columns, values, filter);
              Database.Calls == old(Database.Calls) + [Executed(r.sql, r.parameters)]
      ensures Database.Replies == old(Database.Replies) + [Affected(affected, [])]
    {
      var vs := ValuesOrNulls(columns, values);
      var sql := Dialect.updateSql(table, columns, vs);
      var parameters := Dialect.namedParameters(vs);
      if filter.Some? {
        var whereSql := Dialect.whereSql(filter.value, |parameters|);
        var pars := filter.value.allValueParameters;
        var filterParameters := Dialect.namedParametersFrom(|parameters|, pars);
        filterParameters := Survivors(filterParameters);
        parameters := parameters + filterParameters;
        sql := sql + " " + whereSql;
      }
      var outValues;
      affected, outValues := Database.ExecuteSql(sql, Some(parameters));
    }

    /** Deletes the rows the filter selects (all rows without one) and
        returns the affected-row count. */
    method DeleteSql(table: string, filter: Option<Filter>) returns (affected: int)
      requires Ready()
      modifies Database
      ensures Ready()
      ensures var r := FilteredRequest(Dialect, Dialect.deleteSql(table), filter);
              Database.Calls == old(Database.Calls) + [Executed(r.sql, r.parameters)]
      ensures Database.Replies == old(Database.Replies) + [Affected(affected, [])]
    {
      var sql := Dialect.deleteSql(table);
      var outValues;
      if filter.Some? {
        var whereSql := Dialect.whereSql(filter.value, 0);
        var pars := filter.value.allValueParameters;
        var parameters := Dialect.namedParametersFrom(0, pars);
        affected, outValues := Database.ExecuteSql(sql + " " + whereSql, Some(parameters));
        return;
      }
      affected, outValues := Database.ExecuteSql(sql, None);
    }

    /** Counts the rows the filter selects (all rows without one). */
    method CountSql(table: string, filter: Option<Filter>) returns (count: int)
      requires Ready()
      modifies Database
      ensures Ready()
      ensures var r := FilteredRequest(Dialect, Dialect.countSql(table), filter);
              Database.Calls == old(Database.Calls) + [ScalarQueried(r.sql, r.parameters)]
      ensures Database.Replies == old(Database.Replies) + [Scalar(count)]
    {
      var sql := Dialect.countSql(table);
      if filter.Some? {
        var whereSql := Dialect.whereSql(filter.value, 0);
        var pars := filter.value.allValueParameters;
        var parameters := Dialect.namedParametersFrom(0, pars);
        count := Database.QueryScalar(sql + " " + whereSql, Some(parameters));
        return;
      }
      count := Database.QueryScalar(sql, None);
    }

    /** Probes for the table: true exactly when the probe's count is positive. */
    method TableExists(table: string) returns (found: bool)
      requires Ready()
      modifies Database
      ensures Ready()
      ensures Database.Calls == old(Database.Calls) + [ScalarQueried(Dialect.tableExistsSql(table), None)]
      ensures |Database.Replies| == |old(Database.Replies)| + 1
      ensures Database.Replies[..|old(Database.Replies)|] == old(Database.Replies)
      ensures var last := Database.Replies[|Database.Replies| - 1];
              last.Scalar? && (found <==> last.scalar > 0)
    {
      var sql := Dialect.tableExistsSql(table);
      var count := Database.QueryScalar(sql, None);
      found := count > 0;
    }

    /** Forwarded to the database when there is one; otherwise nothing happens. */
    method Commit()
      requires Database != null ==> Database.Valid()
      modifies Database
      ensures Database != null ==> Database.Valid()
      ensures Database != null ==>
                Database.Calls == old(Database.Calls) + [Committed] && Database.Replies == old(Database.Replies) + [Done]
    {
      if Database != null {
        Database.Commit();
      }
    }

    /** Forwarded to the database when there is one; otherwise nothing happens. */
    method RollBack()
      requires Database != null ==> Database.Valid()
      modifies Database
      ensures Database != null ==> Database.Valid()
      ensures Database != null ==>
                Database.Calls == old(Database.Calls) + [RolledBack] && Database.Replies == old(Database.Replies) + [Done]
    {
      if Database != null {
        Database.RollBack();
      }
    }

    /** Forwarded to the database when there is one; otherwise nothing happens. */
    method Close()
      requires Database != null ==> Database.Valid()
      modifies Database
      ensures Database != null ==> Database.Valid()
      ensures Database != null ==>
                Database.Calls == old(Database.Calls) + [Closed] && Database.Replies == old(Database.Replies) + [Done]
    {
      if Database != null {
        Database.Close();
      }
    }

    /** Exactly `Close`. */
    method Dispose()
      requires Database != null ==> Database.Valid()
      modifies Database
      ensures Database != null ==> Database.Valid()
      ensures Database != null ==>
                Database.Calls == old(Database.Calls) + [Closed] && Database.Replies == old(Database.Replies) + [Done]
    {
      Close();
    }
  }
}
