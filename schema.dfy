/** Value types the data client passes around: schema objects, filters and the
    boxed values of a row. None of them has behaviour of its own. */
module SchemaModel {

  /** The source's `null` reference, where it is a possible argument. */
  datatype Option<+T> = None | Some(value: T)

  /** A boxed value of a row or of a filter condition. `Null` is the C# null
      reference and `DbNull` is the ADO.NET `DBNull.Value` marker; both mean
      "no value" to the database. */
  datatype Value = Null | DbNull | Number(n: int) | Text(s: string) | Flag(b: bool)

  predicate IsBound(v: Value) {
    v != Null && v != DbNull
  }

  /** A column definition as the schema model holds it. */
  datatype Column = Column(name: string, dbType: string, isNullable: bool, defaultValue: Value, size: int)

  /** The fluent wrapper a caller builds a column with; `obj` is the column it wraps. */
  datatype FluentColumn = FluentColumn(obj: Column)

  /** A table: its name and its columns in order. */
  datatype Table = Table(name: string, columns: seq<Column>)

  datatype Direction = Ascending | Descending

  datatype OrderBy = OrderBy(column: string, direction: Direction)

  /** The referential action of a foreign key. */
  datatype OnDelete = Cascade | SetNull | NoAction | Restrict

  /** A filter. The predicate tree and its rendering belong to the filter
      compiler and the dialect, which are not part of this model: `id` stands
      in for the tree, and `allValueParameters` is what the filter's
      `GetAllValueParameters` returns for it, in order. */
  datatype Filter = Filter(id: nat, allValueParameters: seq<Value>)
}
