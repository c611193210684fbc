/**
  The whole page query (pkg/sqlutil/list.go): a reader of its four lines and arguments,
  and that the query of a page reads back as the page.
*/
module SqlQuery {
  import opened Strings
  import opened Pagination
  import opened SqlList

  /** What a page query asks for; no fields stands for all of them. */
  datatype Select = Select(fields: seq<string>, table: string, where: seq<Clause>, order: seq<Sort>,
                           limit: int, offset: int)

  // ---------- the reader ----------

  function ReadSelect(line: string): Option<(seq<string>, string)> {
    var words := Split(line, ' ');
    if |words| == 4 && words[0] == "SELECT" && words[2] == "FROM" then
      Some((if words[1] == "*" then [] else Split(words[1], ','), words[3]))
    else None
  }

  function Texts(args: seq<Arg>): Option<seq<string>> {
    if args == [] then Some([])
    else
      match (args[0], Texts(args[1..]))
      case (Str(s), Some(rest)) => Some([s] + rest)
      case _ => None
  }

  /** The two marks of the last line stand for the last two arguments, in order. */
  function ReadWindow(line: string, limit: Arg, offset: Arg): Option<(int, int)> {
    if Split(line, ' ') == ["LIMIT", "?", "offset", "?"] && limit.Num? && offset.Num? then Some((limit.n, offset.n))
    else None
  }

  function ReadClausesOf(line: string, args: seq<Arg>): Option<seq<Clause>> {
    match (ReadWhere(line), Texts(args))
    case (Some(shapes), Some(texts)) => Bind(shapes, texts)
    case _ => None
  }

  function ReadQuery(text: string, args: seq<Arg>): Option<Select> {
    var lines, n := Split(text, '\n'), |args|;
    if |lines| != 4 || n < 2 then None
    else
      match (ReadSelect(lines[0]), ReadClausesOf(lines[1], args[..n - 2]), ReadOrder(lines[2]),
             ReadWindow(lines[3], args[n - 2], args[n - 1]))
      case (Some((fields, table)), Some(where), Some(order), Some((limit, offset))) =>
        Some(Select(fields, table, where, order, limit, offset))
      case _ => None
  }

  // ---------- its parts ----------

  /** Names that can stand in a SELECT line. */
  predicate Selectable(table: string, fields: seq<string>) {
    && ' ' !in table && '\n' !in table
    && (forall f | f in fields :: ' ' !in f && '\n' !in f && ',' !in f)
    && fields != ["*"]
  }

  lemma {:induction false} JoinCharacters(parts: seq<string>, sep: string, c: char)
    requires c !in sep && forall p | p in parts :: c !in p
    ensures c !in Join(parts, sep)
  {
    if |parts| > 1 {
      assert parts[0] in parts && forall p | p in parts[1..] :: p in parts;
      JoinCharacters(parts[1..], sep, c);
    } else if |parts| == 1 {
      assert parts[0] in parts;
    }
  }

  lemma SelectReads(table: string, fields: seq<string>)
    requires Selectable(table, fields)
    ensures '\n' !in SelectText(table, fields)
    ensures ReadSelect(SelectText(table, fields)) == Some((fields, table))
  {
    hide Split, Join;
    var list := if fields == [] then "*" else Join(fields, ",");
    assert ' ' !in list && '\n' !in list && (list == "*" <==> fields == []) && (fields != [] ==> Split(list, ',') == fields)
      by { ListReads(fields); }
    assert SelectText(table, fields) == "SELECT" + " " + list + " " + "FROM" + " " + table by { SelectWords(list, table); }
    hide SelectText;
    SplitJoin(["SELECT", list, "FROM", table], ' ');
    JoinFour("SELECT", list, "FROM", table, " ");
  }

  lemma SelectWords(list: string, table: string)
    ensures "SELECT " + list + " FROM " + table == "SELECT" + " " + list + " " + "FROM" + " " + table
  {
    assert "SELECT" + " " == "SELECT ";
    assert " " + "FROM" + " " == " FROM ";
  }

  lemma ListReads(fields: seq<string>)
    requires forall f | f in fields :: ' ' !in f && '\n' !in f && ',' !in f
    requires fields != ["*"]
    ensures fields != [] ==>
      var list := Join(fields, ",");
      ' ' !in list && '\n' !in list && list != "*" && Split(list, ',') == fields
  {
    hide Split, Join;
    if fields != [] {
      JoinCharacters(fields, ",", ' ');
      JoinCharacters(fields, ",", '\n');
      SplitJoin(fields, ',');
      SplitNone("*", ',');
    }
  }

  lemma JoinFour(a: string, b: string, c: string, d: string, sep: string)
    ensures Join([a, b, c, d], sep) == a + sep + b + sep + c + sep + d
  {
    assert [a, b, c, d][1..] == [b, c, d];
    assert [b, c, d][1..] == [c, d];
    assert [c, d][1..] == [d];
    assert Join([d], sep) == d;
    assert Join([c, d], sep) == c + sep + d;
    assert Join([b, c, d], sep) == b + sep + (c + sep + d);
    assert a + sep + (b + sep + (c + sep + d)) == a + sep + b + sep + c + sep + d;
  }

  lemma WindowReads(limit: int, offset: int)
    ensures ReadWindow("LIMIT ? offset ?", Num(limit), Num(offset)) == Some((limit, offset))
    ensures '\n' !in "LIMIT ? offset ?"
  {
    hide Split, Join;
    SplitJoin(["LIMIT", "?", "offset", "?"], ' ');
    JoinFour("LIMIT", "?", "offset", "?", " ");
    assert "LIMIT" + " " + "?" + " " + "offset" + " " + "?" == "LIMIT ? offset ?";
  }

  lemma TextsMore(s: string, rest: seq<Arg>)
    requires Texts(rest).Some?
    ensures Texts([Str(s)] + rest) == Some([s] + Texts(rest).value)
  {
    assert ([Str(s)] + rest)[1..] == rest && ([Str(s)] + rest)[0] == Str(s);
  }

  lemma {:induction false} TextsOfStrs(args: seq<string>)
    ensures Texts(Strs(args)) == Some(args)
  {
    if args != [] {
      TextsOfStrs(args[1..]);
      hide Texts;
      TextsMore(args[0], Strs(args[1..]));
      assert args == [args[0]] + args[1..];
    }
  }

  lemma ClauseHasNoBreak(c: Clause)
    requires WellFormed(c)
    ensures '\n' !in Text(c)
  {
    hide Join;
    match c {
      case In(_, members) => MarksHaveNoBreak(|members| - 1);
      case _ =>
    }
    JoinCharacters(Words(c), " ", '\n');
  }

  lemma {:induction false} MarksHaveNoBreak(n: nat)
    ensures '\n' !in Marks(n)
  {
    if n > 0 { MarksHaveNoBreak(n - 1); }
  }

  lemma {:induction false} WrittenHasNoBreak(clauses: seq<Clause>)
    requires forall c | c in clauses :: WellFormed(c)
    ensures '\n' !in Written(clauses)
  {
    hide Text, WellFormed;
    if clauses != [] {
      var front, last := clauses[..|clauses| - 1], clauses[|clauses| - 1];
      assert last in clauses && forall c | c in front :: c in clauses;
      WrittenHasNoBreak(front);
      ClauseHasNoBreak(last);
    }
  }

  lemma WhereReadsBack(clauses: seq<Clause>)
    requires forall c | c in clauses :: WellFormed(c) && Readable(c)
    ensures '\n' !in WhereText(clauses)
    ensures ReadClausesOf(WhereText(clauses), Strs(AllArgs(clauses))) == Some(clauses)
  {
    hide WellFormed, Readable, ReadWhere, WhereText, Bind, Shapes, AllArgs, Written;
    WhereReads(clauses);
    BindBack(clauses);
    TextsOfStrs(AllArgs(clauses));
    if clauses == [] {
      NoClauses();
    } else {
      WrittenHasNoBreak(clauses);
      WrittenIsWhere(clauses);
      assert forall c | c in WhereText(clauses) :: c in Written(clauses);
    }
  }

  lemma {:induction false} OrderHasNoBreak(sorts: seq<Sort>)
    requires Arranged(sorts) && forall s | s in sorts :: '\n' !in s.field
    ensures '\n' !in OrderText(sorts)
  {
    hide Join;
    forall item | item in Items(sorts) ensures '\n' !in item {
      var i :| 0 <= i < |sorts| && item == Item(sorts[i]);
      assert sorts[i] in sorts;
    }
    JoinCharacters(Items(sorts), ",", '\n');
  }

  // ---------- the whole query ----------

  lemma FourLines(a: string, b: string, c: string, d: string)
    requires '\n' !in a && '\n' !in b && '\n' !in c && '\n' !in d
    ensures Split(a + "\n" + b + "\n" + c + "\n" + d, '\n') == [a, b, c, d]
  {
    hide Split, Join;
    JoinFour(a, b, c, d, "\n");
    SplitJoin([a, b, c, d], '\n');
  }

  /** The clauses of filters with an SQL form can be read. */
  lemma ExpressibleClauses(filters: seq<Filter>, columns: Columns)
    requires Identifiers(columns) && Expressible(filters, columns)
    ensures forall c | c in Clauses(filters, columns) :: WellFormed(c) && Readable(c)
  {
    hide ClauseOf, WellFormed, Readable, HasOperator, Retained;
    ClausesOfFilters(filters, columns);
    forall c | c in Clauses(filters, columns) ensures WellFormed(c) && Readable(c) {
      var f :| f in filters && ClauseOf(f, columns) == Some(c);
      FilterBecomesClause(f, columns, map[], Collation((x, y) => true, (x, y) => true));
    }
  }

  /**
    The query of a page reads back as its fields, its table, its clauses with their
    values, its sorts, its size as the limit and the rows before it as the offset.
  */
  lemma QueryReadsBack(table: string, page: Page, columns: Columns)
    requires Selectable(table, page.fields) && Identifiers(columns) && Expressible(page.filters, columns)
    requires Arranged(page.sort) && forall s | s in page.sort :: PlainField(s.field) && '\n' !in s.field
    requires page.page >= 1 && page.perPage >= 1 && (page.page - 1) * page.perPage <= MAX_INT
    ensures ReadQuery(QueryText(table, page, columns), QueryArgs(page, columns)) ==
            Some(Select(page.fields, table, Clauses(page.filters, columns), page.sort,
                        page.perPage, (page.page - 1) * page.perPage))
  {
    hide Split, WhereText, OrderText, SelectText, Clauses, AllArgs, Offset, Strs, PlainField,
         ReadSelect, ReadClausesOf, ReadOrder, ReadWindow, Expressible, Identifiers, WellFormed, Readable;
    var clauses := Clauses(page.filters, columns);
    ExpressibleClauses(page.filters, columns);
    SelectReads(table, page.fields);
    WhereReadsBack(clauses);
    OrderReadsBackExactly(page.sort);
    OrderHasNoBreak(page.sort);
    OffsetFits(page.page, page.perPage);
    WindowReads(page.perPage, (page.page - 1) * page.perPage);
    FourLines(SelectText(table, page.fields), WhereText(clauses), OrderText(page.sort), LIMIT_TEXT);
    var args, n := QueryArgs(page, columns), |Strs(AllArgs(clauses))|;
    assert args[..n] == Strs(AllArgs(clauses)) && |args| == n + 2;
  }
}
