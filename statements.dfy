/** What the data client itself decides, stated on values: which calls a
    multi-statement operation issues, the auto-generated names, the row of
    nulls that stands for absent values, and how the parameter list of an
    UPDATE, DELETE, COUNT, SELECT or returning INSERT is put together. The
    methods of `DataClient` are proved against these functions. */
module Statements {
  import opened SchemaModel
  import opened Databases
  import opened Dialects

  /** A statement text with the parameter list it is executed with; `None`
      means the overload that takes no parameters. */
  datatype Request = Request(sql: string, parameters: Option<seq<InParameter>>)

  /** The calls that execute each of `sqls` once, in order, without parameters. */
  function ExecuteEach(sqls: seq<string>): (calls: seq<Call>)
    ensures |calls| == |sqls|
    ensures forall i :: 0 <= i < |sqls| ==> calls[i] == Executed(sqls[i], None)
  {
    if sqls == [] then [] else ExecuteEach(sqls[..|sqls| - 1]) + [Executed(sqls[|sqls| - 1], None)]
  }

  /** The columns wrapped by `columns`, in argument order. */
  function ColumnObjects(columns: seq<FluentColumn>): (objs: seq<Column>)
    ensures |objs| == |columns|
    ensures forall i :: 0 <= i < |columns| ==> objs[i] == columns[i].obj
  {
    if columns == [] then [] else ColumnObjects(columns[..|columns| - 1]) + [columns[|columns| - 1].obj]
  }

  /** The name `AddPrimaryKey` gives the key of `tableName`. */
  function PrimaryKeyName(tableName: string): (name: string)
    ensures |name| == |tableName| + 3
    ensures name[..3] == "pk_" && name[3..] == tableName
  {
    "pk_" + tableName
  }

  /** The name of the output slot that receives `columnToReturn`. */
  function ReturningName(columnToReturn: string): (name: string)
    ensures |name| == |columnToReturn| + 10
    ensures name[..10] == "returning_" && name[10..] == columnToReturn
  {
    "returning_" + columnToReturn
  }

  /** The values an INSERT or UPDATE binds: the given ones, or when none
      were given (a null array) one null per column. */
  function ValuesOrNulls(columns: seq<string>, values: Option<seq<Value>>): (vs: seq<Value>)
    ensures values.Some? ==> vs == values.value
    ensures values.None? ==> |vs| == |columns| && forall i :: 0 <= i < |vs| ==> vs[i] == Null
  {
    match values
    case Some(given) => given
    case None => seq(|columns|, _ => Null)
  }

  /** The parameters that keep a value: those whose value is neither null
      nor `DBNull`, in their original order. */
  function Survivors(ps: seq<InParameter>): (kept: seq<InParameter>)
    ensures |kept| <= |ps|
    ensures forall p :: p in kept ==> p in ps && IsBound(p.value)
    ensures forall p :: p in ps && IsBound(p.value) ==> p in kept
  {
    if ps == [] then []
    else (if IsBound(ps[0].value) then [ps[0]] else []) + Survivors(ps[1..])
  }

  /** The values among `vs` that are neither null nor `DBNull`, in order. */
  function BoundValues(vs: seq<Value>): (kept: seq<Value>)
    ensures |kept| <= |vs|
    ensures forall v :: v in kept <==> v in vs && IsBound(v)
  {
    if vs == [] then []
    else (if IsBound(vs[0]) then [vs[0]] else []) + BoundValues(vs[1..])
  }

  /** Removing unbound parameters commutes with concatenation: it keeps the
      relative order of what it keeps. */
  lemma {:induction false} SurvivorsAppend(a: seq<InParameter>, b: seq<InParameter>)
    ensures Survivors(a + b) == Survivors(a) + Survivors(b)
  {
    if a == [] {
      assert a + b == b;
    } else {
      assert (a + b)[0] == a[0];
      assert (a + b)[1..] == a[1..] + b;
      SurvivorsAppend(a[1..], b);
    }
  }

  /** If `ps` binds `vs` in order, the surviving parameters bind exactly the
      bound values of `vs`, in order. */
  lemma {:induction false} SurvivorsBindBoundValues(ps: seq<InParameter>, vs: seq<Value>)
    requires Binds(ps, vs)
    ensures Binds(Survivors(ps), BoundValues(vs))
  {
    if ps != [] {
      assert Binds(ps[1..], vs[1..]);
      SurvivorsBindBoundValues(ps[1..], vs[1..]);
      var head := if IsBound(vs[0]) then [ps[0]] else [];
      var headValues := if IsBound(vs[0]) then [vs[0]] else [];
      assert Survivors(ps) == head + Survivors(ps[1..]);
      assert BoundValues(vs) == headValues + BoundValues(vs[1..]);
      BindsAppend(head, headValues, Survivors(ps[1..]), BoundValues(vs[1..]));
    }
  }

  lemma BindsAppend(p: seq<InParameter>, v: seq<Value>, q: seq<InParameter>, w: seq<Value>)
    requires Binds(p, v) && Binds(q, w)
    ensures Binds(p + q, v + w)
  {
    forall i | 0 <= i < |v + w| ensures (p + q)[i].value == (v + w)[i] {
      if i >= |v| {
        assert (p + q)[i] == q[i - |p|];
      }
    }
  }

  /** The statement `UpdateSql` executes: the dialect's UPDATE over the
      values (or nulls), whose SET parameters are converted first; with a
      filter, the WHERE clause is rendered with placeholders numbered from
      the count k of SET parameters, the filter values are converted from
      offset k, those whose value is null or `DBNull` are dropped, and the
      rest follow the SET parameters. */
  function UpdateRequest(d: Dialect, table: string, columns: seq<string>, values: Option<seq<Value>>, filter: Option<Filter>): (r: Request)
    ensures r.parameters.Some?
    ensures var vs := ValuesOrNulls(columns, values);
            var setPars := d.namedParameters(vs);
            var base := d.updateSql(table, columns, vs);
            setPars <= r.parameters.value &&
            (filter.None? ==> r.sql == base && r.parameters.value == setPars) &&
            (filter.Some? ==>
              var k := |setPars|;
              var wherePars := r.parameters.value[k..];
              var converted := d.namedParametersFrom(k, filter.value.allValueParameters);
              r.sql == base + " " + d.whereSql(filter.value, k) &&
              wherePars == Survivors(converted) &&
              (forall p :: p in wherePars <==> p in converted && IsBound(p.value)))
  {
    var vs := ValuesOrNulls(columns, values);
    var setPars := d.namedParameters(vs);
    var base := d.updateSql(table, columns, vs);
    match filter
    case None => Request(base, Some(setPars))
    case Some(f) =>
      var k := |setPars|;
      var wherePars := Survivors(d.namedParametersFrom(k, f.allValueParameters));
      assert (setPars + wherePars)[k..] == wherePars;
      Request(base + " " + d.whereSql(f, k), Some(setPars + wherePars))
  }

  /** With a dialect that converts values in order, an UPDATE binds its SET
      values first and then exactly the filter's bound values, in order. */
  lemma UpdateBindsSetThenBoundFilterValues(d: Dialect, table: string, columns: seq<string>, values: Option<seq<Value>>, filter: Option<Filter>)
    requires ConvertsInOrder(d)
    ensures var vs := ValuesOrNulls(columns, values);
            var whereValues := if filter.Some? then BoundValues(filter.value.allValueParameters) else [];
            Binds(UpdateRequest(d, table, columns, values, filter).parameters.value, vs + whereValues)
  {
    var vs := ValuesOrNulls(columns, values);
    var setPars := d.namedParameters(vs);
    assert Binds(setPars, vs);
    match filter
    case None =>
      assert vs + [] == vs;
    case Some(f) =>
      var converted := d.namedParametersFrom(|setPars|, f.allValueParameters);
      assert Binds(converted, f.allValueParameters);
      SurvivorsBindBoundValues(converted, f.allValueParameters);
      BindsAppend(setPars, vs, Survivors(converted), BoundValues(f.allValueParameters));
  }

  /** A filter with one null condition and one bound one adds exactly one
      parameter to an UPDATE, right after all SET parameters. */
  lemma NullConditionTakesNoSlot(d: Dialect, table: string, columns: seq<string>, values: Option<seq<Value>>, f: Filter, v: Value)
    requires ConvertsInOrder(d)
    requires f.allValueParameters == [Null, v] && IsBound(v)
    ensures var ps := UpdateRequest(d, table, columns, values, Some(f)).parameters.value;
            var k := |ValuesOrNulls(columns, values)|;
            |ps| == k + 1 && ps[k].value == v
  {
    UpdateBindsSetThenBoundFilterValues(d, table, columns, values, Some(f));
    assert BoundValues([v]) == [v];
    assert BoundValues([Null, v]) == BoundValues([v]) by {
      assert [Null, v][1..] == [v];
    }
  }

  /** No two parameters of the list share a name. */
  predicate DistinctNames(ps: seq<Parameter>) {
    forall i, j :: 0 <= i < j < |ps| ==> ps[i].name != ps[j].name
  }

  /** Dropping parameters keeps their names distinct. */
  lemma {:induction false} SurvivorsKeepDistinctNames(ps: seq<InParameter>)
    requires DistinctNames(ps)
    ensures DistinctNames(Survivors(ps))
  {
    if ps != [] {
      var rest := Survivors(ps[1..]);
      assert DistinctNames(ps[1..]);
      SurvivorsKeepDistinctNames(ps[1..]);
      if IsBound(ps[0].value) {
        var all := [ps[0]] + rest;
        forall i, j | 0 <= i < j < |all| ensures all[i].name != all[j].name {
          if i == 0 {
            assert all[j] == rest[j - 1] && rest[j - 1] in ps[1..];
            var m :| 0 <= m < |ps[1..]| && ps[1..][m] == rest[j - 1];
            assert ps[m + 1] == rest[j - 1];
          } else {
            assert all[i] == rest[i - 1] && all[j] == rest[j - 1];
          }
        }
      }
    }
  }

  /** With a dialect that numbers placeholders sequentially, the offset
      threading of `UpdateSql` leaves no two parameters of the UPDATE with
      the same name: the SET part takes numbers below k, the WHERE part
      numbers from k on. */
  lemma UpdateNamesDistinct(d: Dialect, name: int -> string, table: string, columns: seq<string>, values: Option<seq<Value>>, filter: Option<Filter>)
    requires NumbersSequentially(d, name)
    ensures DistinctNames(UpdateRequest(d, table, columns, values, filter).parameters.value)
  {
    var vs := ValuesOrNulls(columns, values);
    var setPars := d.namedParameters(vs);
    var k := |setPars|;
    assert NamedFrom(setPars, 0, name);
    if filter.Some? {
      var converted := d.namedParametersFrom(k, filter.value.allValueParameters);
      assert NamedFrom(converted, k, name);
      var wherePars := Survivors(converted);
      var all := setPars + wherePars;
      assert UpdateRequest(d, table, columns, values, filter).parameters.value == all;
      SurvivorsKeepDistinctNames(converted);
      forall i, j | 0 <= i < j < |all| ensures all[i].name != all[j].name {
        if j < k {
          assert all[i].name == name(i) && all[j].name == name(j);
        } else if i < k {
          assert all[j] == wherePars[j - k] && wherePars[j - k] in converted;
          var m :| 0 <= m < |converted| && converted[m] == wherePars[j - k];
          assert all[i].name == name(i) && all[j].name == name(k + m);
        } else {
          assert all[i] == wherePars[i - k] && all[j] == wherePars[j - k];
        }
      }
    } else {
      forall i, j | 0 <= i < j < k ensures setPars[i].name != setPars[j].name {
        assert setPars[i].name == name(i) && setPars[j].name == name(j);
      }
    }
  }

  /** The statement `DeleteSql` and `CountSql` issue on `baseSql`: without a
      filter, the base statement alone with no parameter list; with one, the
      WHERE clause numbered from 0 and all the filter's values converted
      from offset 0, nothing dropped. */
  function FilteredRequest(d: Dialect, baseSql: string, filter: Option<Filter>): (r: Request)
    ensures filter.None? ==> r == Request(baseSql, None)
    ensures filter.Some? ==>
              r.sql == baseSql + " " + d.whereSql(filter.value, 0) &&
              r.parameters == Some(d.namedParametersFrom(0, filter.value.allValueParameters))
  {
    match filter
    case None => Request(baseSql, None)
    case Some(f) => Request(baseSql + " " + d.whereSql(f, 0), Some(d.namedParametersFrom(0, f.allValueParameters)))
  }

  /** Unlike an UPDATE, a filtered DELETE or COUNT keeps null filter values:
      with an in-order dialect it binds every filter value, numbered from 0. */
  lemma FilteredRequestKeepsNulls(d: Dialect, name: int -> string, baseSql: string, f: Filter)
    requires ConvertsInOrder(d) && NumbersSequentially(d, name)
    ensures var ps := FilteredRequest(d, baseSql, Some(f)).parameters.value;
            Binds(ps, f.allValueParameters) && NamedFrom(ps, 0, name) && DistinctNames(ps)
  {
    var ps := d.namedParametersFrom(0, f.allValueParameters);
    assert NamedFrom(ps, 0, name);
    forall i, j | 0 <= i < j < |ps| ensures ps[i].name != ps[j].name {
      assert ps[i].name == name(i) && ps[j].name == name(j);
    }
  }

  /** The same filter, with values null and v, costs a DELETE or COUNT two
      parameters (the null one included) and an UPDATE only one. */
  lemma NullConditionKeepsSlotOnlyInFilteredRequest(d: Dialect, baseSql: string, table: string, columns: seq<string>,
                                                    values: Option<seq<Value>>, f: Filter, v: Value)
    requires ConvertsInOrder(d)
    requires f.allValueParameters == [Null, v] && IsBound(v)
    ensures var ps := FilteredRequest(d, baseSql, Some(f)).parameters.value;
            |ps| == 2 && ps[0].value == Null && ps[1].value == v
    ensures |UpdateRequest(d, table, columns, values, Some(f)).parameters.value| == |ValuesOrNulls(columns, values)| + 1
  {
    assert Binds(d.namedParametersFrom(0, f.allValueParameters), f.allValueParameters);
    NullConditionTakesNoSlot(d, table, columns, values, f, v);
  }

  /** The call `SelectSql` makes for what the select builder built: the
      builder's parameters are passed exactly when it reports a filter. */
  function SelectCall(q: SelectQuery): (c: Call)
    ensures c.Queried? && c.sql == q.sql
    ensures c.parameters.Some? <==> q.hasFilter
    ensures c.parameters.Some? ==> c.parameters.value == q.parameters
  {
    if q.hasFilter then Queried(q.sql, Some(q.parameters)) else Queried(q.sql, None)
  }

  /** The parameters of a returning INSERT: the converted values in order,
      then one output slot for the returned column, sized 4000; it is the
      list's only output slot. */
  function InsertReturningParameters(converted: seq<InParameter>, columnToReturn: string): (ps: seq<Parameter>)
    ensures |ps| == |converted| + 1
    ensures ps[..|converted|] == converted
    ensures ps[|converted|] == Out(ReturningName(columnToReturn), 4000)
    ensures OutCount(ps) == 1
  {
    var slot := Out(ReturningName(columnToReturn), 4000);
    OutCountAppend(converted, [slot]);
    assert OutCount([slot]) == 1 + OutCount([slot][1..]);
    converted + [slot]
  }
}
