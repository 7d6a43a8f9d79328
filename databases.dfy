/** The execution contract (`IDatabase`): the data client's only way to reach
    the database. Execution itself is I/O, so a `Database` here only records
    every call it receives, and what it answered, in two ghost traces. */
module Databases {
  import opened SchemaModel

  /** A named parameter bound to a statement: an input value (`In`), or an
      output slot (`Out`) whose value the database fills in while executing. */
  datatype Parameter = In(name: string, value: Value) | Out(name: string, size: int)

  /** The parameters a dialect produces from values are all inputs. */
  type InParameter = p: Parameter | p.In? witness In("", Null)

  /** The number of output slots among `ps`. */
  function OutCount(ps: seq<Parameter>): (n: nat)
    ensures n <= |ps|
    ensures (forall i :: 0 <= i < |ps| ==> ps[i].In?) ==> n == 0
  {
    if ps == [] then 0 else (if ps[0].Out? then 1 else 0) + OutCount(ps[1..])
  }

  lemma {:induction false} OutCountAppend(a: seq<Parameter>, b: seq<Parameter>)
    ensures OutCount(a + b) == OutCount(a) + OutCount(b)
  {
    if a == [] {
      assert a + b == b;
    } else {
      assert (a + b)[1..] == a[1..] + b;
      OutCountAppend(a[1..], b);
    }
  }

  datatype ResultSet = ResultSet(rows: seq<seq<Value>>)

  /** One call the data client made on the database. A `None` parameter list
      is the overload that takes no parameters at all. */
  datatype Call =
    | Executed(sql: string, parameters: Option<seq<Parameter>>)
    | Queried(sql: string, parameters: Option<seq<Parameter>>)
    | ScalarQueried(sql: string, parameters: Option<seq<Parameter>>)
    | Committed
    | RolledBack
    | Closed

  /** What the database answered: an affected-row count together with the
      values it wrote into the statement's output slots (one per `Out`, in
      order), a result set, a scalar, or nothing. */
  datatype Reply =
    | Affected(rows: int, outValues: seq<Value>)
    | Rows(result: ResultSet)
    | Scalar(scalar: int)
    | Done

  /** The count of output slots in an optional parameter list. */
  function OutSlots(parameters: Option<seq<Parameter>>): nat {
    match parameters
    case None => 0
    case Some(ps) => OutCount(ps)
  }

  class Database {
    ghost var Calls: seq<Call>
    ghost var Replies: seq<Reply>

    ghost predicate Valid()
      reads this
    {
      |Calls| == |Replies|
    }

    constructor ()
      ensures Valid() && Calls == [] && Replies == []
    {
      Calls, Replies := [], [];
    }

    method ExecuteSql(sql: string, parameters: Option<seq<Parameter>>) returns (affected: int, outValues: seq<Value>)
      requires Valid()
      modifies this
      ensures Valid()
      ensures |outValues| == OutSlots(parameters)
      ensures Calls == old(Calls) + [Executed(sql, parameters)]
      ensures Replies == old(Replies) + [Affected(affected, outValues)]
    {
      affected := *;
      var slots := OutSlots(parameters);
      assert |seq(slots, _ => Null)| == slots;  // some list of that length exists
      outValues :| |outValues| == slots;
      Calls, Replies := Calls + [Executed(sql, parameters)], Replies + [Affected(affected, outValues)];
    }

    method Query(sql: string, parameters: Option<seq<Parameter>>) returns (result: ResultSet)
      requires Valid()
      modifies this
      ensures Valid()
      ensures Calls == old(Calls) + [Queried(sql, parameters)]
      ensures Replies == old(Replies) + [Rows(result)]
    {
      result := *;
      Calls, Replies := Calls + [Queried(sql, parameters)], Replies + [Rows(result)];
    }

    method QueryScalar(sql: string, parameters: Option<seq<Parameter>>) returns (scalar: int)
      requires Valid()
      modifies this
      ensures Valid()
      ensures Calls == old(Calls) + [ScalarQueried(sql, parameters)]
      ensures Replies == old(Replies) + [Scalar(scalar)]
    {
      scalar := *;
      Calls, Replies := Calls + [ScalarQueried(sql, parameters)], Replies + [Scalar(scalar)];
    }

    method Commit()
      requires Valid()
      modifies this
      ensures Valid()
      ensures Calls == old(Calls) + [Committed] && Replies == old(Replies) + [Done]
    {
      Calls, Replies := Calls + [Committed], Replies + [Done];
    }

    method RollBack()
      requires Valid()
      modifies this
      ensures Valid()
      ensures Calls == old(Calls) + [RolledBack] && Replies == old(Replies) + [Done]
    {
      Calls, Replies := Calls + [RolledBack], Replies + [Done];
    }

    method Close()
      requires Valid()
      modifies this
      ensures Valid()
      ensures Calls == old(Calls) + [Closed] && Replies == old(Replies) + [Done]
    {
      Calls, Replies := Calls + [Closed], Replies + [Done];
    }
  }
}
