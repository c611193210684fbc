/**
  The MongoDB builder for list requests (pkg/mongoutil/list.go) and where it agrees with
  the SQL builder.
*/
module MongoList {
  import opened Strings
  import opened Pagination
  import SqlList

  /** A value after `sanitize`, which is a parameter: a number, a date or the text itself. */
  datatype Term<D> =
    | Test(field: string, op: string, value: D)
    | Range(field: string, low: D, high: D)
    | Member(field: string, members: seq<D>)
    | Regex(field: string, pattern: string)

  /** `conditionToNosql`. */
  function MongoOp(condition: string): string {
    if condition == EQ then "$eq"
    else if condition == NEQ then "$neq"
    else if condition == GT then "$gt"
    else if condition == GTE then "$gte"
    else if condition == LT then "$lt"
    else if condition == LTE then "$lte"
    else ""
  }

  function Sanitized<D>(values: seq<string>, sanitize: string -> D): seq<D> {
    seq(|values|, i requires 0 <= i < |values| => sanitize(values[i]))
  }

  /** What the loop makes of one filter. */
  function TermOf<D>(f: Filter, columns: SqlList.Columns, sanitize: string -> D): Option<Term<D>> {
    if f.key !in columns then None
    else
      var field, values := columns[f.key], Split(f.value, ',');
      if f.condition == LIKE then Some(Regex(field, f.value))
      else if f.condition == IN then
        if |values| < 2 then None else Some(Member(field, Sanitized(values, sanitize)))
      else if f.condition == BETWEEN then
        if |values| < 2 then None else Some(Range(field, sanitize(values[0]), sanitize(values[1])))
      else Some(Test(field, MongoOp(f.condition), sanitize(f.value)))
  }

  function Terms<D>(filters: seq<Filter>, columns: SqlList.Columns, sanitize: string -> D): seq<Term<D>> {
    if filters == [] then []
    else
      var front := Terms(filters[..|filters| - 1], columns, sanitize);
      match TermOf(filters[|filters| - 1], columns, sanitize)
      case Some(t) => front + [t]
      case None => front
  }

  /**
    `filterAggregate`. `match` keeps its value from one round to the next, but a skipped
    filter does not append it again.
  */
  method FilterAggregate<D>(filters: seq<Filter>, columns: SqlList.Columns, sanitize: string -> D)
    returns (aggregate: seq<Term<D>>)
    ensures aggregate == Terms(filters, columns, sanitize)
  {
    aggregate := [];
    if |filters| == 0 { return; }
    var matched: seq<Term<D>> := [];
    for i := 0 to |filters|
      invariant aggregate == Terms(filters[..i], columns, sanitize)
    {
      assert filters[..i + 1][..i] == filters[..i];
      var filter := filters[i];
      if filter.key !in columns { continue; }
      var field := columns[filter.key];
      if filter.condition == LIKE {
        matched := [Regex(field, filter.value)];
      } else if filter.condition == IN {
        var values := Split(filter.value, ',');
        if |values| < 2 { continue; }
        var members: seq<D> := [];
        for j := 0 to |values|
          invariant members == Sanitized(values[..j], sanitize)
        {
          members := members + [sanitize(values[j])];
        }
        assert values[..|values|] == values;
        matched := [Member(field, members)];
      } else if filter.condition == BETWEEN {
        var values := Split(filter.value, ',');
        if |values| < 2 { continue; }
        matched := [Range(field, sanitize(values[0]), sanitize(values[1]))];
      } else {
        matched := [Test(field, MongoOp(filter.condition), sanitize(filter.value))];
      }
      aggregate := aggregate + matched;
    }
    assert filters[..|filters|] == filters;
  }

  // ---------- agreement with SQL ----------

  /** The MongoDB operator with the meaning of an SQL one. */
  function Counterpart(op: string): string {
    if op == "=" then "$eq"
    else if op == "<>" then "$ne"
    else if op == ">" then "$gt"
    else if op == ">=" then "$gte"
    else if op == "<" then "$lt"
    else if op == "<=" then "$lte"
    else "none"
  }

  /** The term with the field, operator and values of an SQL clause. */
  function Translated<D>(c: SqlList.Clause, sanitize: string -> D): Term<D> {
    match c
    case Compare(field, op, arg) => Test(field, Counterpart(op), sanitize(arg))
    case Between(field, low, high) => Range(field, sanitize(low), sanitize(high))
    case In(field, members) => Member(field, Sanitized(members, sanitize))
  }

  function AllTranslated<D>(clauses: seq<SqlList.Clause>, sanitize: string -> D): seq<Term<D>> {
    seq(|clauses|, i requires 0 <= i < |clauses| => Translated(clauses[i], sanitize))
  }

  /** A filter that both builders treat alike. */
  predicate Portable(f: Filter, columns: SqlList.Columns) {
    f.key in columns ==>
      f.condition in {IN, BETWEEN} || (f.condition in {EQ, GT, GTE, LT, LTE} && ',' !in f.value)
  }

  /** One filter: MongoDB keeps at least what SQL keeps, and the same if and only if the filter is portable. */
  lemma FilterAgrees<D>(f: Filter, columns: SqlList.Columns, sanitize: string -> D)
    ensures var c, t := SqlList.ClauseOf(f, columns), TermOf(f, columns, sanitize);
      && (c.Some? ==> t.Some?)
      && (Portable(f, columns) ==> (c.Some? <==> t.Some?) && (c.Some? ==> t.value == Translated(c.value, sanitize)))
      && (!Portable(f, columns) ==> t.Some? && (c.Some? ==> t.value != Translated(c.value, sanitize)))
  {
    hide Split;
    SqlList.SplitSize(f.value, ',');
  }

  /**
    The document of one filter by its condition. `like` takes the value as a pattern, and
    `neq` and the comparisons keep a value with commas whole, unlike SQL.
  */
  lemma TermsExactly<D>(key: string, value: string, columns: SqlList.Columns, sanitize: string -> D)
    requires key in columns
    ensures var field := columns[key];
      var Of := (condition: string) => TermOf(Filter(key, value, condition), columns, sanitize);
      && Of("like") == Some(Regex(field, value))
      && Of("eq") == Some(Test(field, "$eq", sanitize(value)))
      && Of("neq") == Some(Test(field, "$neq", sanitize(value)))
      && Of("gt") == Some(Test(field, "$gt", sanitize(value)))
      && Of("gte") == Some(Test(field, "$gte", sanitize(value)))
      && Of("lt") == Some(Test(field, "$lt", sanitize(value)))
      && Of("lte") == Some(Test(field, "$lte", sanitize(value)))
      && (Of("in").Some? <==> ',' in value) && (Of("between").Some? <==> ',' in value)
    ensures forall other | other !in columns ::
              TermOf(Filter(other, value, "eq"), columns, sanitize) == None
  {
    hide Split;
    SqlList.SplitSize(value, ',');
  }

  /** The values of `in` and `between` are the parts of the text between its commas. */
  lemma MembersExactly<D>(key: string, values: seq<string>, columns: SqlList.Columns, sanitize: string -> D)
    requires key in columns && |values| >= 2 && forall v | v in values :: ',' !in v
    ensures var value, field := Join(values, ","), columns[key];
      && TermOf(Filter(key, value, "in"), columns, sanitize) ==
           Some(Member(field, seq(|values|, i requires 0 <= i < |values| => sanitize(values[i]))))
      && TermOf(Filter(key, value, "between"), columns, sanitize) ==
           Some(Range(field, sanitize(values[0]), sanitize(values[1])))
  {
    hide Split, Join;
    SplitJoin(values, ',');
  }

  lemma {:induction false} MongoKeepsMore<D>(filters: seq<Filter>, columns: SqlList.Columns, sanitize: string -> D)
    ensures |SqlList.Clauses(filters, columns)| <= |Terms(filters, columns, sanitize)|
  {
    hide SqlList.ClauseOf, TermOf;
    if filters != [] {
      MongoKeepsMore(filters[..|filters| - 1], columns, sanitize);
      FilterAgrees(filters[|filters| - 1], columns, sanitize);
    }
  }

  /**
    The two builders retain the same filters in the same order with the same fields,
    operators and (sanitised) values if and only if every filter on a known field is
    `in` or `between`, or is `eq`, `gt`, `gte`, `lt` or `lte` with a value without comma.
  */
  lemma {:induction false} BackEndsAgreeExactly<D>(filters: seq<Filter>, columns: SqlList.Columns,
                                                   sanitize: string -> D)
    ensures Terms(filters, columns, sanitize) == AllTranslated(SqlList.Clauses(filters, columns), sanitize)
            <==> forall f | f in filters :: Portable(f, columns)
  {
    hide SqlList.ClauseOf, TermOf, Translated, Portable;
    if filters != [] {
      var front, last := filters[..|filters| - 1], filters[|filters| - 1];
      assert filters == front + [last];
      BackEndsAgreeExactly(front, columns, sanitize);
      FilterAgrees(last, columns, sanitize);
      MongoKeepsMore(front, columns, sanitize);
      var c, t := SqlList.ClauseOf(last, columns), TermOf(last, columns, sanitize);
      var before, after := SqlList.Clauses(front, columns), SqlList.Clauses(filters, columns);
      var terms := Terms(front, columns, sanitize);
      if c.Some? {
        assert AllTranslated(after, sanitize) == AllTranslated(before, sanitize) + [Translated(c.value, sanitize)];
        LastEqual(terms, t.value, AllTranslated(before, sanitize), Translated(c.value, sanitize));
      }
    }
  }

  lemma LastEqual<T>(a: seq<T>, x: T, b: seq<T>, y: T)
    ensures a + [x] == b + [y] <==> a == b && x == y
  {
    if a + [x] == b + [y] {
      assert (a + [x])[..|a|] == (b + [y])[..|b|];
      assert (a + [x])[|a|] == (b + [y])[|b|];
    }
  }

  // ---------- sorting ----------

  /** `sortAggregate`. */
  method SortAggregate(sorts: seq<Sort>) returns (aggregate: seq<(string, int)>)
    ensures aggregate == SortTerms(sorts)
  {
    aggregate := [];
    for i := 0 to |sorts|
      invariant aggregate == SortTerms(sorts[..i])
    {
      var direction := -1;
      if sorts[i].arrange == ASC { direction := 1; }
      aggregate := aggregate + [(sorts[i].field, direction)];
    }
    assert sorts[..|sorts|] == sorts;
  }

  function SortTerms(sorts: seq<Sort>): seq<(string, int)> {
    seq(|sorts|, i requires 0 <= i < |sorts| => (sorts[i].field, if sorts[i].arrange == ASC then 1 else -1))
  }

  /** The ordering that a sort document asks for. */
  function Ordering(terms: seq<(string, int)>): seq<Sort> {
    seq(|terms|, i requires 0 <= i < |terms| => Sort(terms[i].0, if terms[i].1 == 1 then ASC else DESC))
  }

  /** The numbers of the two directions. */
  lemma SortTermsExactly(field: string)
    ensures SortTerms([Sort(field, "asc")]) == [(field, 1)] && SortTerms([Sort(field, "desc")]) == [(field, -1)]
  {
  }

  /**
    For valid arrangements the sort document asks for the given ordering, which is also
    what the ORDER BY text asks for exactly when the fields are plain.
  */
  lemma BackEndsOrderAlike(sorts: seq<Sort>)
    requires SqlList.Arranged(sorts)
    ensures Ordering(SortTerms(sorts)) == sorts
    ensures SqlList.ReadOrder(SqlList.OrderText(sorts)) == Some(Ordering(SortTerms(sorts)))
            <==> forall s | s in sorts :: SqlList.PlainField(s.field)
  {
    hide SqlList.ReadOrder, SqlList.OrderText, SqlList.PlainField;
    forall i | 0 <= i < |sorts| ensures Ordering(SortTerms(sorts))[i] == sorts[i] {
      assert sorts[i] in sorts;
    }
    SqlList.OrderReadsBackExactly(sorts);
  }
}
