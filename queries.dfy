/**
 * Filter expressions and their composition. A query carries the text the table's
 * query engine would be given and the row predicate that text denotes.
 */
module Queries {
  import opened Wrappers
  import opened Strings
  import opened Seqs
  import opened Rows

  /** A filter expression: its text and the rows it selects. */
  datatype Query = Query(text: string, holds: Row -> bool)

  /** The values present in `args`, in their order; the `None`s are dropped. */
  function Present<T>(args: seq<Option<T>>): (r: seq<T>)
    ensures |r| <= |args|
    ensures |r| == 0 <==> forall i | 0 <= i < |args| :: args[i].None?
  {
    if args == [] then []
    else (if args[0].Some? then [args[0].value] else []) + Present(args[1..])
  }

  /** Dropping the `None`s of a concatenation drops them part by part, keeping the order. */
  lemma {:induction false} PresentAppend<T>(a: seq<Option<T>>, b: seq<Option<T>>)
    ensures Present(a + b) == Present(a) + Present(b)
    decreases |a|
  {
    if a != [] {
      assert (a + b)[1..] == a[1..] + b;
      PresentAppend(a[1..], b);
    } else {
      assert a + b == b;
    }
  }

  /** Each query's text wrapped in parentheses. */
  function Parenthesized(qs: seq<Query>): (r: seq<string>)
    ensures |r| == |qs|
  {
    seq(|qs|, i requires 0 <= i < |qs| => "(" + qs[i].text + ")")
  }

  /** Every query of `qs` selects `row`. */
  predicate AllHold(qs: seq<Query>, row: Row)
  {
    if qs == [] then true else qs[0].holds(row) && AllHold(qs[1..], row)
  }

  /** The conjunction of the present filters selects a row exactly when each present filter does. */
  lemma {:induction false} PresentHold(args: seq<Option<Query>>, row: Row)
    ensures AllHold(Present(args), row)
        <==> forall i | 0 <= i < |args| && args[i].Some? :: args[i].value.holds(row)
    decreases |args|
  {
    if args != [] {
      PresentHold(args[1..], row);
      assert forall i | 1 <= i < |args| :: args[i] == args[1..][i - 1];
      if args[0].Some? {
        assert Present(args) == [args[0].value] + Present(args[1..]);
        assert ([args[0].value] + Present(args[1..]))[1..] == Present(args[1..]);
      } else {
        assert Present(args) == Present(args[1..]);
      }
    }
  }

  /**
   * Conjoins the filters that are present: fails when all are `None`, otherwise
   * parenthesizes each and joins them with " & ". The combined query selects a
   * row exactly when every present filter does.
   */
  function ChainQueries(args: seq<Option<Query>>): (r: Result<Query, Failure>)
    ensures r.Err? <==> forall i | 0 <= i < |args| :: args[i].None?
    ensures r.Err? ==> r.error == EmptyQuery
    ensures r.Ok? ==> forall row :: (r.value.holds(row)
      <==> forall i | 0 <= i < |args| && args[i].Some? :: args[i].value.holds(row))
  {
    var present := Present(args);
    if |present| == 0 then Err(EmptyQuery)
    else
      assert forall row :: (AllHold(present, row)
        <==> forall i | 0 <= i < |args| && args[i].Some? :: args[i].value.holds(row)) by {
        forall row { PresentHold(args, row); }
      }
      Ok(Query(Join(Parenthesized(present), " & "), row => AllHold(present, row)))
  }

  /** One present filter `x` gives the text "(x)". */
  lemma ChainOne(a: seq<Option<Query>>, q: Query, b: seq<Option<Query>>)
    requires forall i | 0 <= i < |a| :: a[i].None?
    requires forall i | 0 <= i < |b| :: b[i].None?
    ensures ChainQueries(a + [Some(q)] + b).Ok?
    ensures ChainQueries(a + [Some(q)] + b).value.text == "(" + q.text + ")"
  {
    PresentAppend(a, [Some(q)]);
    PresentAppend(a + [Some(q)], b);
    assert Present(a) == [] && Present(b) == [];
    assert Present(a + [Some(q)] + b) == [q];
    assert (a + [Some(q)] + b)[|a|].Some?;
  }

  /** A `None` anywhere in the arguments changes nothing. */
  lemma ChainDropsNone(a: seq<Option<Query>>, b: seq<Option<Query>>)
    ensures ChainQueries(a + [None] + b).Ok? == ChainQueries(a + b).Ok?
    ensures ChainQueries(a + b).Ok? ==>
      ChainQueries(a + [None] + b).value.text == ChainQueries(a + b).value.text
  {
    PresentAppend(a, [None]);
    PresentAppend(a + [None], b);
    PresentAppend(a, b);
    assert Present(a + [None] + b) == Present(a + b);
  }

  /** A further present filter appends " & (x)" to the text of the ones before it. */
  lemma ChainSnoc(args: seq<Option<Query>>, q: Query)
    requires ChainQueries(args).Ok?
    ensures ChainQueries(args + [Some(q)]).Ok?
    ensures ChainQueries(args + [Some(q)]).value.text
         == ChainQueries(args).value.text + " & " + "(" + q.text + ")"
  {
    PresentAppend(args, [Some(q)]);
    var p := Present(args);
    assert Present(args + [Some(q)]) == p + [q];
    assert Parenthesized(p + [q]) == Parenthesized(p) + ["(" + q.text + ")"];
    JoinSnoc(Parenthesized(p), "(" + q.text + ")", " & ");
    assert (args + [Some(q)])[|args|].Some?;
  }

  /** `("a==1", None, "b==2")` chains to "(a==1) & (b==2)". */
  lemma ChainExample(p: Row -> bool, q: Row -> bool)
    ensures ChainQueries([Some(Query("a==1", p)), None, Some(Query("b==2", q))]).Ok?
    ensures ChainQueries([Some(Query("a==1", p)), None, Some(Query("b==2", q))]).value.text
         == "(a==1) & (b==2)"
  {
    var args := [Some(Query("a==1", p)), None, Some(Query("b==2", q))];
    var a, b := Query("a==1", p), Query("b==2", q);
    assert args[1..] == [None, Some(b)] && args[1..][1..] == [Some(b)];
    assert Present([Some(b)]) == [b];
    assert Present(args) == [a, b];
    assert "(" + a.text + ")" == "(a==1)" && "(" + b.text + ")" == "(b==2)";
    assert Parenthesized([a, b]) == ["(a==1)", "(b==2)"];
    assert ["(a==1)", "(b==2)"][1..] == ["(b==2)"];
  }

  /** The whole table when there is no query, otherwise the rows the query selects. */
  function ApplyQuery(table: seq<Row>, query: Option<Query>): (result: seq<Row>)
    ensures query.None? ==> result == table
    ensures query.Some? ==> forall row ::
      (multiset(result)[row] == if query.value.holds(row) then multiset(table)[row] else 0)
  {
    if query.None? then table
    else
      assert forall row :: (multiset(Filter(table, query.value.holds))[row]
        == if query.value.holds(row) then multiset(table)[row] else 0) by {
        forall row { FilterCount(table, query.value.holds, row); }
      }
      Filter(table, query.value.holds)
  }

  /** Applying a query keeps the selected rows in their original order. */
  lemma ApplyQueryKeepsOrder(a: seq<Row>, b: seq<Row>, query: Option<Query>)
    ensures ApplyQuery(a + b, query) == ApplyQuery(a, query) + ApplyQuery(b, query)
  {
    if query.Some? {
      FilterAppend(a, b, query.value.holds);
    }
  }
}
