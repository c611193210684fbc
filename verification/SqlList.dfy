/**
  The SQL builder for list requests (pkg/sqlutil/list.go). The builder is proved against
  a reader of the emitted text: the WHERE text, split into words, parsed, bound to the
  positional arguments and evaluated on a row, means the conjunction of the filters.
*/
module SqlList {
  import opened Strings
  import opened Pagination

  /** `queryableFields`: the column of each filter key that may be queried. */
  type Columns = map<string, string>

  // ---------- the clauses behind the text ----------

  datatype Clause =
    | Compare(field: string, op: string, arg: string)
    | Between(field: string, low: string, high: string)
    | In(field: string, members: seq<string>)

  /** `conditionToSql`. */
  function SqlOp(condition: string): string {
    if condition == EQ then "="
    else if condition == NEQ then "<>"
    else if condition == GT then ">"
    else if condition == GTE then ">="
    else if condition == LT then "<"
    else if condition == LTE then "<="
    else ""
  }

  /** What the loop makes of one filter: a clause, or nothing when it skips the filter. */
  function ClauseOf(f: Filter, columns: Columns): Option<Clause> {
    if f.key !in columns then None
    else
      var field, values := columns[f.key], Split(f.value, ',');
      if f.condition == BETWEEN then
        if |values| < 2 then None else Some(Between(field, values[0], values[1]))
      else if f.condition == IN then
        if |values| < 2 then None else Some(In(field, values))
      else if ',' in f.value then None
      else Some(Compare(field, SqlOp(f.condition), f.value))
  }

  function Clauses(filters: seq<Filter>, columns: Columns): seq<Clause> {
    if filters == [] then []
    else
      var front := Clauses(filters[..|filters| - 1], columns);
      match ClauseOf(filters[|filters| - 1], columns)
      case Some(c) => front + [c]
      case None => front
  }

  function Marks(n: nat): string {
    if n == 0 then "" else ",?" + Marks(n - 1)
  }

  /** The words of a clause; blanks separate them in the text. */
  function Words(c: Clause): seq<string> {
    match c
    case Compare(field, op, _) => [field, op, "?"]
    case Between(field, _, _) => [field, "BETWEEN", "?", "AND", "?"]
    case In(field, members) => [field, "IN(?" + Marks(if members == [] then 0 else |members| - 1) + ")"]
  }

  function Text(c: Clause): string {
    Join(Words(c), " ")
  }

  function Args(c: Clause): seq<string> {
    match c
    case Compare(_, _, arg) => [arg]
    case Between(_, low, high) => [low, high]
    case In(_, members) => members
  }

  function AllArgs(clauses: seq<Clause>): seq<string> {
    if clauses == [] then [] else AllArgs(clauses[..|clauses| - 1]) + Args(clauses[|clauses| - 1])
  }

  function Texts(clauses: seq<Clause>): seq<string> {
    seq(|clauses|, i requires 0 <= i < |clauses| => Text(clauses[i]))
  }

  function WhereText(clauses: seq<Clause>): string {
    if clauses == [] then "" else "WHERE " + Join(Texts(clauses), " AND ")
  }

  // ---------- the builder ----------

  /** The text that the loop has written after these clauses, a separator behind each. */
  function Written(clauses: seq<Clause>): string {
    if clauses == [] then "WHERE "
    else Written(clauses[..|clauses| - 1]) + Text(clauses[|clauses| - 1]) + " AND "
  }

  lemma {:induction false} JoinGrows(parts: seq<string>, part: string, sep: string)
    requires parts != []
    ensures Join(parts + [part], sep) == Join(parts, sep) + sep + part
  {
    assert (parts + [part])[1..] == parts[1..] + [part];
    if |parts| > 1 { JoinGrows(parts[1..], part, sep); }
  }

  /** What is written ends with one separator too many. */
  lemma {:induction false} WrittenIsWhere(clauses: seq<Clause>)
    requires clauses != []
    ensures Written(clauses) == WhereText(clauses) + " AND "
  {
    hide Text, Join;
    var front, last := clauses[..|clauses| - 1], clauses[|clauses| - 1];
    if front == [] {
      assert Texts(clauses) == [Text(last)];
      JoinOne(Text(last), " AND ");
    } else {
      WrittenIsWhere(front);
      assert Texts(clauses) == Texts(front) + [Text(last)];
      JoinGrows(Texts(front), Text(last), " AND ");
      var a, b := Join(Texts(front), " AND "), Text(last);
      hide Texts, Written;
      assert "WHERE " + (a + " AND " + b) == ("WHERE " + a) + " AND " + b;
    }
  }

  lemma JoinOne(part: string, sep: string)
    ensures Join([part], sep) == part
  {
  }

  lemma BetweenText(field: string)
    ensures Join([field, "BETWEEN", "?", "AND", "?"], " ") == field + " BETWEEN ? AND ?"
  {
    var w := [field, "BETWEEN", "?", "AND", "?"];
    assert w[1..][1..] == w[2..] && w[2..][1..] == w[3..] && w[3..][1..] == w[4..] == ["?"];
    assert Join(w[3..], " ") == "AND ?";
    assert Join(w[2..], " ") == "? AND ?";
    assert Join(w[1..], " ") == "BETWEEN ? AND ?";
  }

  lemma PairText(a: string, b: string)
    ensures Join([a, b], " ") == a + " " + b
  {
  }

  lemma TripleText(a: string, b: string, c: string)
    ensures Join([a, b, c], " ") == a + " " + b + " " + c
  {
    PairText(b, c);
    assert [a, b, c][1..] == [b, c];
  }

  /** Every clause ends with a mark or a parenthesis, which the cutset trim leaves alone. */
  lemma TextEnd(c: Clause)
    ensures Text(c) != "" && Text(c)[|Text(c)| - 1] in "?)"
  {
    hide Join;
    match c
    case Compare(field, op, _) => TripleText(field, op, "?");
    case Between(field, _, _) => BetweenText(field);
    case In(field, _) => PairText(field, Words(c)[1]);
  }

  /** `TrimRight(..., " AND ")` takes exactly the last separator off. */
  lemma TrimTakesOneSeparator(clauses: seq<Clause>)
    requires clauses != []
    ensures TrimRight(Written(clauses), " AND ") == WhereText(clauses)
  {
    WrittenIsWhere(clauses);
    var last := clauses[|clauses| - 1];
    var front := Written(clauses[..|clauses| - 1]);
    assert Written(clauses) == front + Text(last) + " AND ";
    hide Written, WhereText, Text;
    TextEnd(last);
    SameTail(front + Text(last), WhereText(clauses), " AND ");
    TrimRightThrough(WhereText(clauses), " AND ", " AND ");
  }

  lemma SameTail(a: string, b: string, tail: string)
    requires a + tail == b + tail
    ensures a == b
  {
    assert a == (a + tail)[..|a|] && b == (b + tail)[..|b|];
  }

  /** `whereQuery`. */
  method WhereQuery(filters: seq<Filter>, columns: Columns) returns (text: string, args: seq<string>)
    ensures text == WhereText(Clauses(filters, columns))
    ensures args == AllArgs(Clauses(filters, columns))
  {
    hide Text, WhereText, TrimRight, Split, SqlOp, Marks, Args;
    if |filters| == 0 {
      assert Clauses(filters, columns) == [] && WhereText([]) == "" by { NoClauses(); }
      return "", [];
    }
    var query, hasAlreadyWhereQuery := "WHERE ", false;
    args := [];
    for i := 0 to |filters|
      invariant var done := Clauses(filters[..i], columns);
        query == Written(done) && args == AllArgs(done) && hasAlreadyWhereQuery == (done != [])
    {
      var filter := filters[i];
      assert filters[..i + 1][..i] == filters[..i];
      ghost var done := Clauses(filters[..i], columns);
      var where, more := ClauseParts(filter, columns);
      if where.None? { continue; }
      assert (done + [ClauseOf(filter, columns).value])[..|done|] == done;
      args := args + more;
      hasAlreadyWhereQuery := true;
      query := query + where.value;
      query := query + " AND ";
    }
    assert filters[..|filters|] == filters;
    if !hasAlreadyWhereQuery {
      NoClauses();
      return "", [];
    }
    TrimTakesOneSeparator(Clauses(filters, columns));
    text := TrimRight(query, " AND ");
  }

  lemma NoClauses()
    ensures WhereText([]) == ""
  {
  }

  /** The switch in the loop: the clause text and its arguments, or nothing for `continue`. */
  method ClauseParts(f: Filter, columns: Columns) returns (where: Option<string>, args: seq<string>)
    ensures where.None? <==> ClauseOf(f, columns).None?
    ensures where.Some? ==> where.value == Text(ClauseOf(f, columns).value) && args == Args(ClauseOf(f, columns).value)
  {
    hide Split, SqlOp, Join;
    if f.key !in columns { return None, []; }
    var field := columns[f.key];
    if f.condition == BETWEEN {
      var values := Split(f.value, ',');
      if |values| < 2 { return None, []; }
      BetweenText(field);
      return Some(field + " BETWEEN ? AND ?"), [values[0], values[1]];
    }
    if f.condition == IN {
      var values := Split(f.value, ',');
      if |values| < 2 { return None, []; }
      PairText(field, "IN(?" + Marks(|values| - 1) + ")");
      return Some(field + " " + ("IN(?" + Marks(|values| - 1) + ")")), values;
    }
    if ',' in f.value { return None, []; }
    TripleText(field, SqlOp(f.condition), "?");
    return Some(field + " " + SqlOp(f.condition) + " " + "?"), [f.value];
  }

  // ---------- the reader ----------

  /** A parsed clause, its arguments still open. */
  datatype Shape = Comparison(field: string, op: string) | Range(field: string) | Membership(field: string, width: nat)

  predicate IsIdentifier(s: string) {
    s != "" && forall c | c in s :: 'a' <= c <= 'z' || 'A' <= c <= 'Z' || '0' <= c <= '9' || c == '_'
  }

  predicate IsOp(s: string) {
    s in {"=", "<>", ">", ">=", "<", "<="}
  }

  /** The number of `,?` in front of the closing parenthesis. */
  function ReadMarks(s: string): Option<nat> {
    if s == ")" then Some(0)
    else if |s| >= 2 && s[..2] == ",?" then
      match ReadMarks(s[2..])
      case Some(n) => Some(n + 1)
      case None => None
    else None
  }

  function ReadMembership(word: string): Option<nat> {
    if |word| >= 4 && word[..4] == "IN(?" then
      match ReadMarks(word[4..])
      case Some(n) => Some(n + 1)
      case None => None
    else None
  }

  /** The first clause of the words, and how many words it takes. */
  function ReadClause(words: seq<string>): Option<(Shape, nat)> {
    if |words| < 2 || !IsIdentifier(words[0]) then None
    else if |words| >= 5 && words[1..5] == ["BETWEEN", "?", "AND", "?"] then Some((Range(words[0]), 5))
    else if ReadMembership(words[1]).Some? then Some((Membership(words[0], ReadMembership(words[1]).value), 2))
    else if |words| >= 3 && IsOp(words[1]) && words[2] == "?" then Some((Comparison(words[0], words[1]), 3))
    else None
  }

  function ReadClauses(words: seq<string>): Option<seq<Shape>>
    decreases |words|
  {
    match ReadClause(words)
    case None => None
    case Some((shape, n)) =>
      if n == |words| then Some([shape])
      else if n == 0 || n > |words| || words[n] != "AND" then None
      else
        match ReadClauses(words[n + 1..])
        case Some(shapes) => Some([shape] + shapes)
        case None => None
  }

  /** An empty text is no condition. */
  function ReadWhere(text: string): Option<seq<Shape>> {
    if text == "" then Some([])
    else
      var words := Split(text, ' ');
      if words[0] == "WHERE" then ReadClauses(words[1..]) else None
  }

  function Width(shape: Shape): nat {
    match shape
    case Comparison(_, _) => 1
    case Range(_) => 2
    case Membership(_, width) => width
  }

  /** The i-th mark of the text stands for the i-th argument. */
  function Bind(shapes: seq<Shape>, args: seq<string>): Option<seq<Clause>> {
    if shapes == [] then (if args == [] then Some([]) else None)
    else
      var n := Width(shapes[0]);
      if |args| < n then None
      else
        match Bind(shapes[1..], args[n..])
        case None => None
        case Some(rest) =>
          var c :=
            match shapes[0]
            case Comparison(field, op) => Compare(field, op, args[0])
            case Range(field) => Between(field, args[0], args[1])
            case Membership(field, _) => In(field, args[..n]);
          Some([c] + rest)
  }

  // ---------- rows ----------

  /** A row; a column that is missing is NULL, and no condition on it is true. */
  type Row = map<string, string>

  /** How the database compares a column with an argument. */
  datatype Collation = Collation(eq: (string, string) -> bool, lt: (string, string) -> bool)

  predicate OpHolds(op: string, x: string, arg: string, coll: Collation) {
    if op == "=" then coll.eq(x, arg)
    else if op == "<>" then !coll.eq(x, arg)
    else if op == ">" then coll.lt(arg, x)
    else if op == ">=" then coll.lt(arg, x) || coll.eq(x, arg)
    else if op == "<" then coll.lt(x, arg)
    else op == "<=" && (coll.lt(x, arg) || coll.eq(x, arg))
  }

  predicate ClauseHolds(c: Clause, row: Row, coll: Collation) {
    c.field in row &&
    var x := row[c.field];
    match c
    case Compare(_, op, arg) => OpHolds(op, x, arg, coll)
    case Between(_, low, high) => OpHolds(">=", x, low, coll) && OpHolds("<=", x, high, coll)
    case In(_, members) => exists m | m in members :: coll.eq(x, m)
  }

  /** The value of the WHERE text on a row, or nothing when the text cannot be read or bound. */
  function Evaluate(text: string, args: seq<string>, row: Row, coll: Collation): Option<bool> {
    match ReadWhere(text)
    case None => None
    case Some(shapes) =>
      match Bind(shapes, args)
      case None => None
      case Some(clauses) => Some(forall c | c in clauses :: ClauseHolds(c, row, coll))
  }

  // ---------- what a filter means ----------

  /** The builder keeps the filter. */
  predicate Retained(f: Filter, columns: Columns) {
    f.key in columns && if f.condition in {IN, BETWEEN} then ',' in f.value else ',' !in f.value
  }

  /** The condition has an SQL form. */
  predicate HasOperator(f: Filter) {
    f.condition in {EQ, NEQ, GT, GTE, LT, LTE, IN, BETWEEN}
  }

  /** What the filter asks of a row, in the words of its condition. */
  predicate FilterHolds(f: Filter, columns: Columns, row: Row, coll: Collation)
    requires f.key in columns
  {
    columns[f.key] in row &&
    var x := row[columns[f.key]];
    var values := Split(f.value, ',');
    if f.condition == EQ then coll.eq(x, f.value)
    else if f.condition == NEQ then !coll.eq(x, f.value)
    else if f.condition == GT then coll.lt(f.value, x)
    else if f.condition == GTE then coll.lt(f.value, x) || coll.eq(x, f.value)
    else if f.condition == LT then coll.lt(x, f.value)
    else if f.condition == LTE then coll.lt(x, f.value) || coll.eq(x, f.value)
    else if f.condition == IN then exists v | v in values :: coll.eq(x, v)
    else
      f.condition == BETWEEN && |values| >= 2
      && (coll.lt(values[0], x) || coll.eq(x, values[0])) && (coll.lt(x, values[1]) || coll.eq(x, values[1]))
  }

  predicate AllHold(filters: seq<Filter>, columns: Columns, row: Row, coll: Collation) {
    forall f | f in filters && Retained(f, columns) :: FilterHolds(f, columns, row, coll)
  }

  /** Every retained filter has an SQL form: `like` has none. */
  predicate Expressible(filters: seq<Filter>, columns: Columns) {
    forall f | f in filters && Retained(f, columns) :: HasOperator(f)
  }

  predicate Identifiers(columns: Columns) {
    forall key | key in columns :: IsIdentifier(columns[key])
  }

  // ---------- reading back ----------

  function ShapeOf(c: Clause): Shape {
    match c
    case Compare(field, op, _) => Comparison(field, op)
    case Between(field, _, _) => Range(field)
    case In(field, members) => Membership(field, |members|)
  }

  predicate WellFormed(c: Clause) {
    && IsIdentifier(c.field)
    && (c.Compare? ==> IsOp(c.op) || c.op == "")
    && (c.In? ==> c.members != [])
  }

  predicate Readable(c: Clause) {
    c.Compare? ==> IsOp(c.op)
  }

  /** All words of the text behind `WHERE`. */
  function AllWords(clauses: seq<Clause>): seq<string> {
    if clauses == [] then []
    else if |clauses| == 1 then Words(clauses[0])
    else Words(clauses[0]) + ["AND"] + AllWords(clauses[1..])
  }

  lemma {:induction false} JoinConcat(a: seq<string>, b: seq<string>, sep: string)
    requires a != [] && b != []
    ensures Join(a + b, sep) == Join(a, sep) + sep + Join(b, sep)
  {
    if |a| == 1 {
      assert (a + b)[1..] == b;
    } else {
      assert (a + b)[1..] == a[1..] + b;
      JoinConcat(a[1..], b, sep);
    }
  }

  lemma {:induction false} WordsMakeText(clauses: seq<Clause>)
    requires clauses != []
    ensures AllWords(clauses) != []
    ensures Join(AllWords(clauses), " ") == Join(Texts(clauses), " AND ")
  {
    hide Words, Join;
    var first, rest := clauses[0], clauses[1..];
    assert Words(first) != [] by { SomeWords(first); }
    if rest == [] {
      assert Texts(clauses) == [Text(first)];
      JoinOne(Text(first), " AND ");
    } else {
      WordsMakeText(rest);
      assert Texts(clauses) == [Text(first)] + Texts(rest);
      JoinConcat([Text(first)], Texts(rest), " AND ");
      JoinOne(Text(first), " AND ");
      JoinConcat(Words(first) + ["AND"], AllWords(rest), " ");
      JoinConcat(Words(first), ["AND"], " ");
      JoinOne("AND", " ");
      var a, b := Text(first), Join(AllWords(rest), " ");
      assert a + " " + "AND" + " " + b == a + " AND " + b;
    }
  }

  lemma SomeWords(c: Clause)
    ensures Words(c) != []
  {
  }

  lemma {:induction false} MarksShape(n: nat)
    ensures ' ' !in Marks(n) && Count(Marks(n), '?') == n
    ensures ReadMarks(Marks(n) + ")") == Some(n)
  {
    if n > 0 {
      MarksShape(n - 1);
      var s := Marks(n) + ")";
      assert s[..2] == ",?" && s[2..] == Marks(n - 1) + ")";
      CountConcat(",?", Marks(n - 1), '?');
      assert Count(",?", '?') == 1 by { assert ",?"[1..] == "?" && "?"[1..] == ""; }
    } else {
      assert Marks(0) + ")" == ")";
    }
  }

  lemma WordsAreClean(c: Clause)
    requires WellFormed(c)
    ensures forall w | w in Words(c) :: ' ' !in w
  {
    match c
    case In(_, members) => MarksShape(|members| - 1);
    case _ =>
  }

  lemma {:induction false} AllWordsAreClean(clauses: seq<Clause>)
    requires forall c | c in clauses :: WellFormed(c)
    ensures forall w | w in AllWords(clauses) :: ' ' !in w
  {
    hide Words, WellFormed;
    if clauses != [] {
      assert clauses[0] in clauses && forall c | c in clauses[1..] :: c in clauses;
      WordsAreClean(clauses[0]);
      AllWordsAreClean(clauses[1..]);
    }
  }

  /** The words of a clause, whatever follows them, read as that clause if it has an operator. */
  lemma ClauseReads(c: Clause, more: seq<string>)
    requires WellFormed(c) && (more != [] ==> more[0] == "AND")
    ensures ReadClause(Words(c) + more) == if Readable(c) then Some((ShapeOf(c), |Words(c)|)) else None
  {
    var words := Words(c) + more;
    match c
    case Compare(field, op, _) =>
      assert words[0] == field && words[1] == op && words[2] == "?";
      assert |words| >= 5 ==> words[1..5][0] == op;
      assert ReadMembership(op).None?;
    case Between(field, _, _) =>
      assert words[1..5] == ["BETWEEN", "?", "AND", "?"];
    case In(field, members) =>
      var n := |members| - 1;
      var word := "IN(?" + Marks(n) + ")";
      assert words[0] == field && words[1] == word;
      assert word[4..] == Marks(n) + ")" && word[..4] == "IN(?";
      MarksShape(n);
      assert |words| >= 5 ==> words[1..5][0] == word;
      assert word[0] == 'I' && "BETWEEN"[0] == 'B';
  }

  function Shapes(clauses: seq<Clause>): seq<Shape> {
    seq(|clauses|, i requires 0 <= i < |clauses| => ShapeOf(clauses[i]))
  }

  lemma {:induction false} ClausesRead(clauses: seq<Clause>)
    requires clauses != [] && forall c | c in clauses :: WellFormed(c)
    ensures ReadClauses(AllWords(clauses)) ==
            if forall c | c in clauses :: Readable(c) then Some(Shapes(clauses)) else None
  {
    hide Words, WellFormed, Readable, ReadClause, ShapeOf;
    var first, rest := clauses[0], clauses[1..];
    assert first in clauses && forall c | c in rest :: c in clauses;
    assert forall c | c in clauses :: c == first || c in rest;
    var more := if rest == [] then [] else ["AND"] + AllWords(rest);
    assert AllWords(clauses) == Words(first) + more;
    ClauseReads(first, more);
    assert Words(first) != [] by { SomeWords(first); }
    if rest == [] {
      assert Shapes(clauses) == [ShapeOf(first)];
    } else {
      ClausesRead(rest);
      var words := AllWords(clauses);
      assert words[|Words(first)|] == "AND" && words[|Words(first)| + 1..] == AllWords(rest);
      assert Shapes(clauses) == [ShapeOf(first)] + Shapes(rest);
    }
  }

  /** The words of the emitted text. */
  lemma WhereSplits(clauses: seq<Clause>)
    requires clauses != [] && forall c | c in clauses :: WellFormed(c)
    ensures WhereText(clauses) != "" && Split(WhereText(clauses), ' ') == ["WHERE"] + AllWords(clauses)
  {
    hide WellFormed, Words, Join, Split, AllWords, Texts;
    WordsMakeText(clauses);
    AllWordsAreClean(clauses);
    JoinConcat(["WHERE"], AllWords(clauses), " ");
    JoinOne("WHERE", " ");
    assert WhereText(clauses) == "WHERE" + " " + Join(Texts(clauses), " AND ");
    SplitJoin(["WHERE"] + AllWords(clauses), ' ');
  }

  /** The emitted text reads back as the clauses, if and only if every one has an operator. */
  lemma WhereReads(clauses: seq<Clause>)
    requires forall c | c in clauses :: WellFormed(c)
    ensures ReadWhere(WhereText(clauses)) ==
            if forall c | c in clauses :: Readable(c) then Some(Shapes(clauses)) else None
  {
    hide WellFormed, Readable, ReadClauses, Words, Split, AllWords;
    if clauses != [] {
      WhereSplits(clauses);
      hide WhereText;
      assert (["WHERE"] + AllWords(clauses))[1..] == AllWords(clauses);
      ClausesRead(clauses);
    } else {
      assert Shapes(clauses) == [];
    }
  }

  lemma {:induction false} AllArgsFront(clauses: seq<Clause>)
    requires clauses != []
    ensures AllArgs(clauses) == Args(clauses[0]) + AllArgs(clauses[1..])
  {
    hide Args;
    var last := clauses[|clauses| - 1];
    if |clauses| > 1 {
      var front := clauses[..|clauses| - 1];
      AllArgsFront(front);
      assert clauses[1..][..|clauses| - 2] == front[1..];
    }
  }

  lemma BindFirst(c: Clause, shapes: seq<Shape>, args: seq<string>, rest: seq<Clause>)
    requires Bind(shapes, args) == Some(rest)
    ensures Bind([ShapeOf(c)] + shapes, Args(c) + args) == Some([c] + rest)
  {
    var all, n := Args(c) + args, Width(ShapeOf(c));
    assert ([ShapeOf(c)] + shapes)[1..] == shapes;
    assert n == |Args(c)| && all[n..] == args && all[..n] == Args(c);
  }

  /** The arguments stand in the order of the marks: binding gives the clauses back. */
  lemma {:induction false} BindBack(clauses: seq<Clause>)
    ensures Bind(Shapes(clauses), AllArgs(clauses)) == Some(clauses)
  {
    if clauses != [] {
      var first, rest := clauses[0], clauses[1..];
      AllArgsFront(clauses);
      BindBack(rest);
      assert Shapes(clauses) == [ShapeOf(first)] + Shapes(rest);
      hide Bind, Shapes, AllArgs, Args;
      BindFirst(first, Shapes(rest), AllArgs(rest), rest);
      assert clauses == [first] + rest;
    }
  }

  // ---------- meaning ----------

  lemma {:induction false} SplitSize(s: string, sep: char)
    ensures |Split(s, sep)| >= 2 <==> sep in s
  {
    if s != "" {
      SplitSize(s[1..], sep);
      assert s == [s[0]] + s[1..];
    }
  }

  /** One filter: it becomes a clause if it is retained, and the clause means the filter. */
  lemma FilterBecomesClause(f: Filter, columns: Columns, row: Row, coll: Collation)
    requires Identifiers(columns)
    ensures ClauseOf(f, columns).Some? <==> Retained(f, columns)
    ensures Retained(f, columns) ==>
              var c := ClauseOf(f, columns).value;
              && WellFormed(c) && (Readable(c) <==> HasOperator(f))
              && (HasOperator(f) ==> (ClauseHolds(c, row, coll) <==> FilterHolds(f, columns, row, coll)))
  {
    hide Split;
    SplitSize(f.value, ',');
    if f.key in columns { assert IsIdentifier(columns[f.key]); }
    hide IsIdentifier;
  }

  lemma {:induction false} ClausesOfFilters(filters: seq<Filter>, columns: Columns)
    ensures forall c :: c in Clauses(filters, columns) <==> exists f :: f in filters && ClauseOf(f, columns) == Some(c)
  {
    hide ClauseOf;
    if filters != [] {
      var front, last := filters[..|filters| - 1], filters[|filters| - 1];
      ClausesOfFilters(front, columns);
      assert filters == front + [last];
    }
  }

  /**
    The emitted WHERE text can be read if and only if every retained filter has an SQL
    form, and then, with the i-th argument bound to the i-th mark, it evaluates on every
    row to the conjunction of the retained filters.
  */
  lemma WhereMeansFilters(filters: seq<Filter>, columns: Columns, row: Row, coll: Collation)
    requires Identifiers(columns)
    ensures var clauses := Clauses(filters, columns);
      Evaluate(WhereText(clauses), AllArgs(clauses), row, coll) ==
        if Expressible(filters, columns) then Some(AllHold(filters, columns, row, coll)) else None
  {
    hide ClauseOf, WellFormed, Readable, HasOperator, ClauseHolds, FilterHolds, Identifiers,
         ReadWhere, WhereText, Bind, Shapes, Clauses, AllArgs;
    var clauses := Clauses(filters, columns);
    ClausesOfFilters(filters, columns);
    forall f: Filter { FilterBecomesClause(f, columns, row, coll); }
    forall c | c in clauses ensures WellFormed(c) {
      var f :| f in filters && ClauseOf(f, columns) == Some(c);
    }
    WhereReads(clauses);
    BindBack(clauses);
    if Expressible(filters, columns) {
      forall c | c in clauses ensures Readable(c) {
        var f :| f in filters && ClauseOf(f, columns) == Some(c);
      }
      if AllHold(filters, columns, row, coll) {
        forall c | c in clauses ensures ClauseHolds(c, row, coll) {
          var f :| f in filters && ClauseOf(f, columns) == Some(c);
        }
      } else {
        var f :| f in filters && Retained(f, columns) && !FilterHolds(f, columns, row, coll);
        assert ClauseOf(f, columns).value in clauses;
      }
    } else {
      var f :| f in filters && Retained(f, columns) && !HasOperator(f);
      assert ClauseOf(f, columns).value in clauses;
    }
  }

  /** The clause of one filter by its condition; `like` has no operator. */
  lemma ClausesExactly(key: string, value: string, columns: Columns)
    requires key in columns && ',' !in value
    ensures var field, Of := columns[key], (condition: string) => ClauseOf(Filter(key, value, condition), columns);
      && Of("eq") == Some(Compare(field, "=", value)) && Of("neq") == Some(Compare(field, "<>", value))
      && Of("gt") == Some(Compare(field, ">", value)) && Of("gte") == Some(Compare(field, ">=", value))
      && Of("lt") == Some(Compare(field, "<", value)) && Of("lte") == Some(Compare(field, "<=", value))
      && Of("like") == Some(Compare(field, "", value)) && Of("in") == None && Of("between") == None
  {
    hide Split;
    SplitSize(value, ',');
  }

  /** Values with commas make memberships and ranges, and are skipped by the comparisons. */
  lemma ListsExactly(key: string, values: seq<string>, columns: Columns)
    requires key in columns && |values| >= 2 && forall v | v in values :: ',' !in v
    ensures var value, field := Join(values, ","), columns[key];
      && ClauseOf(Filter(key, value, "in"), columns) == Some(In(field, values))
      && ClauseOf(Filter(key, value, "between"), columns) == Some(Between(field, values[0], values[1]))
      && forall c | c in {"eq", "neq", "gt", "gte", "lt", "lte", "like"} ::
           ClauseOf(Filter(key, value, c), columns) == None
  {
    hide Split, Join;
    SplitJoin(values, ',');
    SplitSize(Join(values, ","), ',');
  }

  // ---------- marks and arguments ----------

  lemma {:induction false} NoMarks(s: string)
    ensures Count(s, '?') == 0 <==> '?' !in s
  {
    if s != "" {
      assert s == [s[0]] + s[1..];
      NoMarks(s[1..]);
    }
  }

  lemma OneMark()
    ensures Count("?", '?') == 1
  {
    assert "?"[1..] == "";
  }

  /** Text without marks between two texts. */
  lemma CountAround(a: string, plain: string, b: string)
    requires '?' !in plain
    ensures Count(a + plain + b, '?') == Count(a, '?') + Count(b, '?')
  {
    NoMarks(plain);
    CountConcat(a, plain, '?');
    CountConcat(a + plain, b, '?');
  }

  lemma ClauseMarks(c: Clause)
    requires WellFormed(c)
    ensures Count(Text(c), '?') == |Args(c)|
  {
    hide Join, Count, Marks;
    NoMarks(c.field);
    OneMark();
    match c
    case Compare(field, op, _) =>
      TripleText(field, op, "?");
      CountAround(field, " " + op + " ", "?");
      assert field + " " + op + " " + "?" == field + (" " + op + " ") + "?";
    case Between(field, _, _) =>
      BetweenText(field);
      CountAround(field, " BETWEEN ", "?");
      CountAround(field + " BETWEEN " + "?", " AND ", "?");
      assert field + " BETWEEN " + "?" + " AND " + "?" == field + " BETWEEN ? AND ?";
    case In(field, members) =>
      var m := Marks(|members| - 1);
      MarksShape(|members| - 1);
      PairText(field, "IN(?" + m + ")");
      CountAround(field, " IN(", "?");
      CountConcat(field + " IN(" + "?", m, '?');
      NoMarks(")");
      CountConcat(field + " IN(" + "?" + m, ")", '?');
      assert field + " IN(" + "?" + m + ")" == field + " " + ("IN(?" + m + ")");
  }

  lemma {:induction false} WrittenMarks(clauses: seq<Clause>)
    requires forall c | c in clauses :: WellFormed(c)
    ensures Count(Written(clauses), '?') == |AllArgs(clauses)|
  {
    hide Text, WellFormed, Args, Count;
    if clauses == [] {
      NoMarks("WHERE ");
    } else {
      var front, last := clauses[..|clauses| - 1], clauses[|clauses| - 1];
      assert last in clauses && forall c | c in front :: c in clauses;
      WrittenMarks(front);
      ClauseMarks(last);
      NoMarks(" AND ");
      CountConcat(Written(front), Text(last), '?');
      CountConcat(Written(front) + Text(last), " AND ", '?');
    }
  }

  /** The WHERE text has as many marks as arguments, also with a condition that has no operator. */
  lemma WhereMarks(filters: seq<Filter>, columns: Columns)
    requires Identifiers(columns)
    ensures var clauses := Clauses(filters, columns);
      Count(WhereText(clauses), '?') == |AllArgs(clauses)|
  {
    hide ClauseOf, WellFormed, Identifiers, Written, Count, AllArgs, Texts, Join;
    var clauses := Clauses(filters, columns);
    ClausesOfFilters(filters, columns);
    forall c | c in clauses ensures WellFormed(c) {
      var f :| f in filters && ClauseOf(f, columns) == Some(c);
      FilterBecomesClause(f, columns, map[], Collation((x, y) => true, (x, y) => true));
    }
    if clauses == [] {
      NoMarks("");
      assert AllArgs(clauses) == [] by { NoArgs(); }
    } else {
      WrittenMarks(clauses);
      WrittenIsWhere(clauses);
      NoMarks(" AND ");
      CountConcat(WhereText(clauses), " AND ", '?');
    }
  }

  lemma NoArgs()
    ensures AllArgs([]) == []
  {
  }

  // ---------- ORDER BY ----------

  function Item(s: Sort): string {
    " " + s.field + " " + s.arrange
  }

  function WrittenOrder(sorts: seq<Sort>): string {
    if sorts == [] then "ORDER BY"
    else WrittenOrder(sorts[..|sorts| - 1]) + (Item(sorts[|sorts| - 1]) + ",")
  }

  function Items(sorts: seq<Sort>): seq<string> {
    seq(|sorts|, i requires 0 <= i < |sorts| => Item(sorts[i]))
  }

  function OrderText(sorts: seq<Sort>): string {
    if sorts == [] then "" else "ORDER BY" + Join(Items(sorts), ",")
  }

  predicate Arranged(sorts: seq<Sort>) {
    forall s | s in sorts :: IsArrange(s.arrange)
  }

  lemma {:induction false} WrittenIsOrder(sorts: seq<Sort>)
    requires sorts != []
    ensures WrittenOrder(sorts) == OrderText(sorts) + ","
  {
    hide Join, Item;
    var front, last := sorts[..|sorts| - 1], sorts[|sorts| - 1];
    if front == [] {
      assert Items(sorts) == [Item(last)];
      JoinOne(Item(last), ",");
    } else {
      WrittenIsOrder(front);
      assert Items(sorts) == Items(front) + [Item(last)];
      JoinGrows(Items(front), Item(last), ",");
      var a, b := Join(Items(front), ","), Item(last);
      hide Items, WrittenOrder;
      assert "ORDER BY" + (a + "," + b) == ("ORDER BY" + a + ",") + b;
    }
  }

  /**
    `orderByQuery`: the items, joined by commas, without commas at the end. With valid
    arrangements the cutset trim takes exactly one comma off.
  */
  method OrderByQuery(sorts: seq<Sort>) returns (text: string)
    ensures text == TrimRight(OrderText(sorts), ",")
    ensures Arranged(sorts) ==> text == OrderText(sorts)
  {
    hide TrimRight, Item, OrderText, IsArrange;
    TrimmedOrder(sorts);
    if |sorts| == 0 {
      return "";
    }
    var query := "ORDER BY";
    for i := 0 to |sorts|
      invariant query == WrittenOrder(sorts[..i])
    {
      assert sorts[..i + 1][..i] == sorts[..i];
      query := query + (Item(sorts[i]) + ",");
    }
    assert sorts[..|sorts|] == sorts;
    text := TrimRight(query, ",");
  }

  /** What the trim makes of the loop's text. */
  lemma TrimmedOrder(sorts: seq<Sort>)
    ensures sorts == [] ==> OrderText(sorts) == "" && TrimRight(OrderText(sorts), ",") == ""
    ensures sorts != [] ==> TrimRight(WrittenOrder(sorts), ",") == TrimRight(OrderText(sorts), ",")
    ensures Arranged(sorts) ==> TrimRight(OrderText(sorts), ",") == OrderText(sorts)
  {
    if sorts != [] {
      hide TrimRight, WrittenOrder, OrderText, IsArrange;
      WrittenIsOrder(sorts);
      TrimRightThrough(OrderText(sorts), ",", ",");
      if Arranged(sorts) { TrimTakesOneComma(sorts); }
    }
  }

  lemma {:induction false} TrimRightKeeps(s: string, cutset: string)
    ensures |TrimRight(s, cutset)| <= |s|
    ensures TrimRight(s, cutset) == s <==> s == "" || s[|s| - 1] !in cutset
  {
    if s != "" && s[|s| - 1] in cutset { TrimRightKeeps(s[..|s| - 1], cutset); }
  }

  /** The trim takes more than the loop's last comma if and only if the last arrangement ends with one. */
  lemma TrimTakesOneCommaExactly(sorts: seq<Sort>)
    requires sorts != []
    ensures var last := sorts[|sorts| - 1].arrange;
      TrimRight(WrittenOrder(sorts), ",") == OrderText(sorts) <==> last == "" || last[|last| - 1] != ','
  {
    hide OrderText, TrimRight, Item;
    var last := sorts[|sorts| - 1];
    var front := WrittenOrder(sorts[..|sorts| - 1]);
    assert WrittenOrder(sorts) == front + Item(last) + ",";
    hide WrittenOrder;
    WrittenIsOrder(sorts);
    SameTail(front + Item(last), OrderText(sorts), ",");
    TrimRightThrough(OrderText(sorts), ",", ",");
    TrimRightKeeps(OrderText(sorts), ",");
    ItemEnd(last);
  }

  lemma ItemEnd(s: Sort)
    ensures var item := Item(s);
      item != "" && item[|item| - 1] == if s.arrange == "" then ' ' else s.arrange[|s.arrange| - 1]
  {
  }

  lemma TrimTakesOneComma(sorts: seq<Sort>)
    requires sorts != [] && Arranged(sorts)
    ensures TrimRight(WrittenOrder(sorts), ",") == OrderText(sorts)
  {
    hide WrittenOrder, OrderText, TrimRight;
    assert sorts[|sorts| - 1] in sorts;
    TrimTakesOneCommaExactly(sorts);
  }

  /** One ORDER BY item behind its comma or the keyword. */
  function ReadItem(item: string): Option<Sort> {
    var words := Split(item, ' ');
    if |words| == 3 && words[0] == "" && words[1] != "" && IsArrange(words[2]) then Some(Sort(words[1], words[2]))
    else None
  }

  function ReadItems(items: seq<string>): Option<seq<Sort>> {
    if items == [] then Some([])
    else
      match (ReadItem(items[0]), ReadItems(items[1..]))
      case (Some(s), Some(rest)) => Some([s] + rest)
      case _ => None
  }

  function ReadOrder(text: string): Option<seq<Sort>> {
    if text == "" then Some([])
    else if |text| >= 8 && text[..8] == "ORDER BY" then ReadItems(Split(text[8..], ','))
    else None
  }

  predicate PlainField(field: string) {
    field != "" && ' ' !in field && ',' !in field
  }

  lemma ItemReads(s: Sort)
    requires PlainField(s.field) && IsArrange(s.arrange)
    ensures ReadItem(Item(s)) == Some(s) && ',' !in Item(s)
  {
    hide Split;
    SplitNone(s.arrange, ' ');
    SplitFirst(s.field, s.arrange, ' ');
    SplitFirst("", s.field + " " + s.arrange, ' ');
    assert Item(s) == "" + [' '] + (s.field + " " + s.arrange);
  }

  lemma {:induction false} ItemsRead(sorts: seq<Sort>)
    requires Arranged(sorts) && forall s | s in sorts :: PlainField(s.field)
    ensures ReadItems(Items(sorts)) == Some(sorts)
    ensures forall item | item in Items(sorts) :: ',' !in item
  {
    hide Item, ReadItem, PlainField;
    if sorts != [] {
      var first, rest := sorts[0], sorts[1..];
      assert first in sorts && forall s | s in rest :: s in sorts;
      ItemReads(first);
      ItemsRead(rest);
      assert Items(sorts)[1..] == Items(rest) && sorts == [first] + rest;
      assert Items(sorts) == [Item(first)] + Items(rest);
    }
  }

  lemma {:induction false} SplitCharacters(s: string, sep: char)
    ensures forall p, c | p in Split(s, sep) && c in p :: c in s
  {
    if s != "" {
      var rest := Split(s[1..], sep);
      SplitCharacters(s[1..], sep);
      assert s[0] in s && forall c | c in s[1..] :: c in s;
      assert forall c | c in rest[0] :: c in s[1..];
      forall p, c | p in Split(s, sep) && c in p ensures c in s {
        if p !in rest { assert p == [] || p == [s[0]] + rest[0]; }
      }
    }
  }

  lemma {:induction false} ReadFieldsArePlain(items: seq<string>)
    requires forall item | item in items :: ',' !in item
    ensures ReadItems(items).Some? ==> forall s | s in ReadItems(items).value :: PlainField(s.field)
  {
    if items != [] {
      var item := items[0];
      assert item in items && forall x | x in items[1..] :: x in items;
      ReadFieldsArePlain(items[1..]);
      SplitClean(item, ' ');
      SplitCharacters(item, ' ');
      hide Split;
      if ReadItem(item).Some? { assert PlainField(ReadItem(item).value.field); }
    }
  }

  /**
    The emitted ORDER BY text of valid arrangements reads back as the sort list if and
    only if every field is non-empty and free of blanks and commas.
  */
  lemma OrderReadsBackExactly(sorts: seq<Sort>)
    requires Arranged(sorts)
    ensures ReadOrder(OrderText(sorts)) == Some(sorts) <==> forall s | s in sorts :: PlainField(s.field)
  {
    hide PlainField, IsArrange, Join, Split, Items, ReadItems;
    if sorts != [] {
      var body := Join(Items(sorts), ",");
      assert OrderText(sorts)[8..] == body && OrderText(sorts)[..8] == "ORDER BY";
      if forall s | s in sorts :: PlainField(s.field) {
        ItemsRead(sorts);
        assert Items(sorts) != [] by { SomeItems(sorts); }
        SplitJoin(Items(sorts), ',');
      }
      SplitClean(body, ',');
      ReadFieldsArePlain(Split(body, ','));
    }
  }

  lemma SomeItems(sorts: seq<Sort>)
    requires sorts != []
    ensures Items(sorts) != []
  {
  }

  /** Every sort list that the parser produces is emitted with one comma between its items. */
  lemma ParsedSortsAreOrdered(query: Query, order: seq<string>)
    requires IsOrder(query, order)
    ensures var sorts := Parsed(query, order).sort;
      Arranged(sorts) &&
      (ReadOrder(OrderText(sorts)) == Some(sorts) <==> forall s | s in sorts :: PlainField(s.field))
  {
    hide ReadOrder, OrderText, PlainField, FiltersOf, FieldsOf, AddSorts;
    EveryRequestIsBounded(query, order);
    OrderReadsBackExactly(Parsed(query, order).sort);
  }

  // ---------- the whole query ----------

  datatype Arg = Str(s: string) | Num(n: int)

  function Strs(args: seq<string>): (r: seq<Arg>)
    ensures |r| == |args|
  {
    if args == [] then [] else [Str(args[0])] + Strs(args[1..])
  }

  /** 64-bit two's complement. */
  function Wrap(n: int): int {
    (n + MAX_INT + 1) % (2 * (MAX_INT + 1)) - MAX_INT - 1
  }

  function Offset(page: int, perPage: int): int {
    Wrap((page - 1) * perPage)
  }

  function SelectText(table: string, fields: seq<string>): string {
    "SELECT " + (if fields == [] then "*" else Join(fields, ",")) + " FROM " + table
  }

  const LIMIT_TEXT := "LIMIT ? offset ?"

  /** Text and arguments for a page whose sorts the parser produced. */
  function QueryText(table: string, page: Page, columns: Columns): string {
    SelectText(table, page.fields) + "\n" + WhereText(Clauses(page.filters, columns)) + "\n"
    + OrderText(page.sort) + "\n" + LIMIT_TEXT
  }

  function QueryArgs(page: Page, columns: Columns): seq<Arg> {
    Strs(AllArgs(Clauses(page.filters, columns))) + [Num(page.perPage), Num(Offset(page.page, page.perPage))]
  }

  /** `BuildPaginationQuery`. */
  method BuildPaginationQuery(table: string, page: Page, columns: Columns) returns (text: string, args: seq<Arg>)
    ensures text == SelectText(table, page.fields) + "\n" + WhereText(Clauses(page.filters, columns)) + "\n"
                    + TrimRight(OrderText(page.sort), ",") + "\n" + LIMIT_TEXT
    ensures Arranged(page.sort) ==> text == QueryText(table, page, columns)
    ensures args == QueryArgs(page, columns)
  {
    hide WhereText, OrderText, WrittenOrder, TrimRight, Clauses, AllArgs, Wrap, Join;
    text := SelectText(table, page.fields);
    text := text + "\n";
    var where, whereArgs := WhereQuery(page.filters, columns);
    args := Strs(whereArgs);
    text := text + where;
    text := text + "\n";
    var order := OrderByQuery(page.sort);
    text := text + order;
    text := text + "\n";
    args := args + [Num(page.perPage), Num(Offset(page.page, page.perPage))];
    text := text + LIMIT_TEXT;
  }

  /** The query has as many marks as arguments exactly when names and sort fields hold no mark. */
  lemma QueryMarks(table: string, page: Page, columns: Columns)
    requires Identifiers(columns)
    ensures var clauses := Clauses(page.filters, columns);
      var order := TrimRight(OrderText(page.sort), ",");
      var text := SelectText(table, page.fields) + "\n" + WhereText(clauses) + "\n"
                  + order + "\n" + LIMIT_TEXT;
      var args := Strs(AllArgs(clauses)) + [Num(page.perPage), Num(Offset(page.page, page.perPage))];
      Count(text, '?') == |args| <==> '?' !in SelectText(table, page.fields) && '?' !in order
  {
    hide TrimRight, Identifiers, Clauses, WhereText, OrderText, SelectText, Offset, Count, AllArgs;
    var clauses := Clauses(page.filters, columns);
    WhereMarks(page.filters, columns);
    var a, w, o := SelectText(table, page.fields), WhereText(clauses), TrimRight(OrderText(page.sort), ",");
    NoMarks(a);
    NoMarks(o);
    NoMarks("\n");
    LimitMarks();
    CountConcat(a, "\n", '?');
    CountConcat(a + "\n", w, '?');
    CountConcat(a + "\n" + w, "\n", '?');
    CountConcat(a + "\n" + w + "\n", o, '?');
    CountConcat(a + "\n" + w + "\n" + o, "\n", '?');
    CountConcat(a + "\n" + w + "\n" + o + "\n", LIMIT_TEXT, '?');
  }

  lemma LimitMarks()
    ensures Count(LIMIT_TEXT, '?') == 2
  {
    hide Count;
    OneMark();
    NoMarks("");
    CountAround("", "LIMIT ", "?");
    CountAround("" + "LIMIT " + "?", " offset ", "?");
    assert LIMIT_TEXT == "" + "LIMIT " + "?" + " offset " + "?";
  }

  // ---------- the key order, again ----------

  /**
    From the request to the rows: when no leading condition word reaches another key's
    filter, any two iteration orders of the query map give WHERE texts that accept
    exactly the same rows, or can both not be read.
  */
  lemma OrderOfKeysKeepsTheRows(query: Query, a: seq<string>, b: seq<string>, columns: Columns,
                                row: Row, coll: Collation)
    requires Harmless(query) && IsOrder(query, a) && IsOrder(query, b) && Identifiers(columns)
    ensures var x, y := Clauses(FiltersOf(query, a), columns), Clauses(FiltersOf(query, b), columns);
      Evaluate(WhereText(x), AllArgs(x), row, coll) == Evaluate(WhereText(y), AllArgs(y), row, coll)
  {
    hide Evaluate, WhereText, AllArgs, Clauses, Identifiers, Retained, HasOperator, FilterHolds, FiltersOf, Harmless;
    var f, g := FiltersOf(query, a), FiltersOf(query, b);
    HarmlessOrders(query, a, b);
    assert forall x :: x in f <==> x in multiset(f);
    assert forall x :: x in g <==> x in multiset(g);
    WhereMeansFilters(f, columns, row, coll);
    WhereMeansFilters(g, columns, row, coll);
  }

  /** Otherwise they may not: `a=1&b=gt` accepts a row with a = 2 in one order and rejects it in the other. */
  lemma OrderOfKeysCanChangeTheRows(coll: Collation)
    requires coll.lt("1", "2") && !coll.eq("2", "1")
    ensures var query, columns, row := map["a" := ["1"], "b" := [GT]], map["a" := "a"], map["a" := "2"];
      var x, y := Clauses(FiltersOf(query, ["a", "b"]), columns), Clauses(FiltersOf(query, ["b", "a"]), columns);
      && Evaluate(WhereText(x), AllArgs(x), row, coll) == Some(true)
      && Evaluate(WhereText(y), AllArgs(y), row, coll) == Some(false)
  {
    hide Evaluate, WhereText, AllArgs, Clauses, FiltersOf, Split;
    var columns, row := map["a" := "a"], map["a" := "2"];
    WordsCanReachOtherKeys();
    var f, g := Filter("a", "1", GT), Filter("a", "1", EQ);
    WhereMeansFilters([f], columns, row, coll);
    WhereMeansFilters([g], columns, row, coll);
    assert f in [f] && g in [g];
  }

  // ---------- pages ----------

  /** `LIMIT limit offset offset` on the ordered, filtered rows. */
  function Window<T>(rows: seq<T>, limit: nat, offset: nat): seq<T> {
    var from := if offset < |rows| then offset else |rows|;
    var to := if offset + limit < |rows| then offset + limit else |rows|;
    rows[from..to]
  }

  /** The offset is the intended one if and only if the product fits in 64 bits. */
  lemma OffsetFits(page: int, perPage: int)
    requires page >= 1 && perPage >= 1
    ensures Offset(page, perPage) == (page - 1) * perPage <==> (page - 1) * perPage <= MAX_INT
  {
    var n := (page - 1) * perPage;
    assert n >= 0;
    if n <= MAX_INT {
      assert (n + MAX_INT + 1) % (2 * (MAX_INT + 1)) == n + MAX_INT + 1;
    }
  }

  /** The rows of the pages 1 to `pages`, one page after another. */
  function PagesUpTo<T>(rows: seq<T>, perPage: nat, pages: nat): seq<T> {
    if pages == 0 then []
    else
      PagesUpTo(rows, perPage, pages - 1)
      + var offset := Offset(pages, perPage); if offset >= 0 then Window(rows, perPage, offset) else []
  }

  /** The first rows of the list, or all of them. */
  function Front<T>(rows: seq<T>, n: nat): seq<T> {
    if n < |rows| then rows[..n] else rows
  }

  lemma WindowExtends<T>(rows: seq<T>, limit: nat, offset: nat)
    ensures Front(rows, offset) + Window(rows, limit, offset) == Front(rows, offset + limit)
  {
  }

  lemma {:induction false} PagesArePrefixes<T>(rows: seq<T>, perPage: nat, pages: nat)
    requires perPage >= 1 && (pages > 0 ==> (pages - 1) * perPage <= MAX_INT)
    ensures PagesUpTo(rows, perPage, pages) == Front(rows, pages * perPage)
  {
    hide Window, Offset, Front;
    if pages > 0 {
      var offset := (pages - 1) * perPage;
      assert pages * perPage == offset + perPage;
      if pages > 1 { assert (pages - 2) * perPage == offset - perPage; }
      PagesArePrefixes(rows, perPage, pages - 1);
      OffsetFits(pages, perPage);
      WindowExtends(rows, perPage, offset);
    } else {
      NoRows(rows);
    }
  }

  lemma NoRows<T>(rows: seq<T>)
    ensures Front(rows, 0) == []
  {
  }

  /**
    The pages 1 to ceil(n / perPage) of n rows are consecutive pieces whose
    concatenation is the whole list, so they are disjoint and their lengths sum to what
    the count query, which has the same WHERE text, returns.
  */
  lemma PagesCoverTheList<T>(rows: seq<T>, perPage: nat, pages: nat)
    requires perPage >= 1 && pages == (|rows| + perPage - 1) / perPage
    requires pages > 0 ==> (pages - 1) * perPage <= MAX_INT
    ensures PagesUpTo(rows, perPage, pages) == rows
    ensures |rows| > 0 ==> |PagesUpTo(rows, perPage, pages - 1)| < |rows|
  {
    hide PagesUpTo;
    Ceiling(|rows|, perPage);
    PagesArePrefixes(rows, perPage, pages);
    if pages > 0 {
      if pages > 1 { assert (pages - 2) * perPage == (pages - 1) * perPage - perPage; }
      PagesArePrefixes(rows, perPage, pages - 1);
    }
  }

  lemma Ceiling(n: nat, d: nat)
    requires d >= 1
    ensures var q := (n + d - 1) / d; n <= q * d && (n > 0 ==> q > 0 && (q - 1) * d < n)
  {
    var q := (n + d - 1) / d;
    var r := (n + d - 1) % d;
    assert n + d - 1 == q * d + r;
    assert (q - 1) * d == q * d - d;
    if q <= 0 { assert q * d <= 0; }
  }
}
