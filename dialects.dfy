/** The dialect contract: one SQL-rendering operation per need of the data
    client. Concrete dialects, one per database product, are not part of this
    model, so a `Dialect` is a record of arbitrary total functions and the
    data client may assume nothing about the text they produce. */
module Dialects {
  import opened SchemaModel
  import opened Databases

  /** What a select builder produces: the statement text, whether a filter
      was given, and the parameters that filter needs. */
  datatype SelectQuery = SelectQuery(sql: string, hasFilter: bool, parameters: seq<Parameter>)

  datatype Dialect = Dialect(
    createTableSqls: Table -> seq<string>,
    dropTableSqls: string -> seq<string>,
    /** (table, primary-key name, columns) */
    primaryKeySql: (string, string, seq<string>) -> string,
    /** (foreign-key name, table, column, referencing table, referencing column, action) */
    foreignKeySql: (string, string, string, string, string, OnDelete) -> string,
    dropPrimaryKeySql: (string, string) -> string,
    dropForeignKeySql: (string, string) -> string,
    /** (unique-key name, table, columns) */
    uniqueKeySql: (string, string, seq<string>) -> string,
    dropUniqueKeySql: (string, string) -> string,
    /** (index name, table, columns) */
    createIndexSql: (string, string, seq<string>) -> string,
    dropIndexSql: (string, string) -> string,
    addColumnSql: (string, Column) -> string,
    dropColumnSqls: (string, string) -> seq<string>,
    addCommentToTableSql: (string, string) -> string,
    addCommentToColumnSql: (string, string, string) -> string,
    removeCommentFromTableSql: string -> string,
    removeCommentFromColumnSql: (string, string) -> string,
    renameTableSql: (string, string) -> string,
    renameColumnSql: (string, string, string) -> string,
    modifyColumnSql: (string, string, Column) -> string,
    /** (table, columns, values) */
    insertSql: (string, seq<string>, seq<Value>) -> string,
    /** (table, columns, values, column to return, name of the output parameter) */
    insertReturningColumnSql: (string, seq<string>, seq<Value>, string, string) -> string,
    updateSql: (string, seq<string>, seq<Value>) -> string,
    deleteSql: string -> string,
    countSql: string -> string,
    tableExistsSql: string -> string,
    /** The WHERE clause of a filter whose placeholders are numbered from the offset. */
    whereSql: (Filter, int) -> string,
    /** `ConvertToNamedParameters(values)` */
    namedParameters: seq<Value> -> seq<InParameter>,
    /** `ConvertToNamedParameters(offset, values)` */
    namedParametersFrom: (int, seq<Value>) -> seq<InParameter>,
    /** A select builder over this dialect: (tables, columns, filter, order, skip, take).
        The builder's source is not part of this model. */
    buildSelect: (seq<string>, seq<string>, Option<Filter>, seq<OrderBy>, int, int) -> SelectQuery
  )

  /** `ps` binds exactly the values `vs`, one parameter per value, in order. */
  predicate Binds(ps: seq<InParameter>, vs: seq<Value>) {
    |ps| == |vs| && forall i :: 0 <= i < |vs| ==> ps[i].value == vs[i]
  }

  /** A dialect whose parameter conversion keeps every value and its position
      (including null ones). The data client does not rely on this; some
      lemmas about it are stated for such dialects. */
  ghost predicate ConvertsInOrder(d: Dialect) {
    (forall vs :: Binds(d.namedParameters(vs), vs)) &&
    (forall k, vs :: Binds(d.namedParametersFrom(k, vs), vs))
  }

  /** The i-th parameter of `ps` has the name of placeholder number `k + i`. */
  predicate NamedFrom(ps: seq<InParameter>, k: int, name: int -> string) {
    forall i :: 0 <= i < |ps| ==> ps[i].name == name(k + i)
  }

  ghost predicate Injective(name: int -> string) {
    forall a, b :: name(a) == name(b) ==> a == b
  }

  /** A dialect that numbers its placeholders sequentially: plain conversion
      from 0, conversion with an offset from that offset, with distinct
      names for distinct numbers. */
  ghost predicate NumbersSequentially(d: Dialect, name: int -> string) {
    Injective(name) &&
    (forall vs :: NamedFrom(d.namedParameters(vs), 0, name)) &&
    (forall k, vs :: NamedFrom(d.namedParametersFrom(k, vs), k, name))
  }
}
